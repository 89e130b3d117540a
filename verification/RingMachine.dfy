/**
 The crash ring as a transition system: one step per atomic operation or plain store, any number
 of writers and inspectors in any interleaving, atomics sequentially consistent. A thread that
 stops forever is one the action list never advances again.
 */
module RingMachine {
  import opened Words
  import opened RingTypes
  import opened RingWindow

  const WINDOW_LIMIT: nat := 64

  datatype Status = Valid | Partial | Empty

  /** An inspector's receipt. `seen` and `uncounted` are history: the stable records in walk
      order, and the slots that no counter of the receipt mentions. */
  datatype Snapshot = Snapshot(
    status: Status, watermark: nat, dropped: u64, busy: nat, malformed: nat, emptySlots: nat,
    afterWatermark: nat, entries: seq<Record>, seen: seq<Record>, uncounted: nat)

  function BlankRecord(): Record {
    Record(0, 0, 0, 0, 0, 0, 0, seq(MAX_MESSAGE_BYTES, _ => 0))
  }

  const NO_SNAPSHOT := Snapshot(Empty, 0, 0, 0, 0, 0, 0, [], [], 0)

  /** Where a thread is in `write` or `capture_newest`; `i` is the slot an inspector is at. */
  datatype Pc =
    | Idle
    | Wrote(result: nat)
    | Captured(snap: Snapshot, max: nat)
    | Reserving(evt: Event, expected: nat)
    | Claiming(evt: Event, r: nat)
    | Checking(evt: Event, r: nat)
    | Marking(evt: Event, r: nat)
    | Filling(evt: Event, r: nat, k: nat)
    | Releasing(evt: Event, r: nat)
    | Rejecting(evt: Event, r: nat)
    | Losing(evt: Event, reserved: nat)
    | Opening(max: nat)
    | Sampling(snap: Snapshot, max: nat)
    | Visiting(snap: Snapshot, max: nat, i: nat)
    | Loading(snap: Snapshot, max: nat, i: nat)
    | Copying(snap: Snapshot, max: nat, i: nat, word: nat, k: nat, copy: Record)
    | Leaving(snap: Snapshot, max: nat, i: nat)

  /** What became of a reservation. */
  datatype Fate = InFlight(t: nat) | Published | Lost

  /** Everything up to `records` is memory the threads share; the rest is history no step reads. */
  datatype State = State(
    cap: nat, last: nat, dropped: u64, words: seq<nat>, access: seq<nat>, records: seq<Record>,
    pcs: map<nat, Pc>,
    log: seq<Event>, fates: seq<Fate>, owners: seq<Option<nat>>, losses: nat, finished: nat)

  datatype Action =
    | StartWrite(t: nat, evt: Event)
    | StartCapture(t: nat, max: nat)
    | Advance(t: nat)

  function PcOf(s: State, t: nat): Pc {
    if t in s.pcs then s.pcs[t] else Idle
  }

  predicate Ready(pc: Pc) {
    pc.Idle? || pc.Wrote? || pc.Captured?
  }

  function Goto(s: State, t: nat, pc: Pc): (s': State)
    ensures PcOf(s', t) == pc && forall u :: u != t ==> PcOf(s', u) == PcOf(s, u)
  {
    s.(pcs := s.pcs[t := pc])
  }

  function Home(r: nat, cap: nat): (i: nat)
    requires 0 < cap && 0 < r
    ensures i < cap
  {
    (r - 1) % cap
  }

  /** The reservation a thread's `write` holds, or 0. */
  function Reserved(pc: Pc): nat {
    match pc
    case Claiming(_, r) => r
    case Checking(_, r) => r
    case Marking(_, r) => r
    case Filling(_, r, _) => r
    case Releasing(_, r) => r
    case Rejecting(_, r) => r
    case Losing(_, r) => r
    case _ => 0
  }

  predicate WriterHolds(pc: Pc) {
    pc.Checking? || pc.Marking? || pc.Filling? || pc.Releasing? || pc.Rejecting?
  }

  predicate InspectorHolds(pc: Pc) {
    pc.Loading? || pc.Copying? || pc.Leaving?
  }

  /** Counters and indices stay where the code's own arithmetic keeps them. */
  predicate PcShape(pc: Pc, cap: nat, last: nat) {
    && Reserved(pc) <= last
    && (WriterHolds(pc) || pc.Claiming? ==> Reserved(pc) > 0)
    && (pc.Filling? ==> pc.k <= FILL_STORES)
    && (InspectorHolds(pc) || pc.Visiting? ==> 0 < pc.max && |pc.snap.entries| <= pc.max)
    && (InspectorHolds(pc) ==> pc.i < cap)
    && (pc.Visiting? ==> pc.i <= cap)
    && (pc.Copying? ==> pc.k <= PAYLOAD_PARTS)
    && (pc.Opening? || pc.Sampling? ==> 0 < pc.max)
    && (pc.Sampling? ==> pc.snap.entries == [])
  }

  ghost predicate Shaped(s: State) {
    && 0 < s.cap == |s.words| == |s.access| == |s.records| == |s.owners|
    && s.last == |s.log| == |s.fates| <= MAX_RING_SEQUENCE
    && forall t :: PcShape(PcOf(s, t), s.cap, s.last)
  }

  function Init(cap: nat, records: seq<Record>): State
    requires 0 < cap == |records|
  {
    State(cap, 0, 0, seq(cap, _ => 0), seq(cap, _ => 0), records, map[],
          [], [], seq(cap, _ => None), 0, 0)
  }

  /** Claims a free slot for `t`; the caller has checked that it is free. */
  function Claim(s: State, i: nat, t: nat, mode: nat): State
    requires i < |s.access| == |s.owners|
  {
    s.(access := s.access[i := mode], owners := s.owners[i := Some(t)])
  }

  function Release(s: State, i: nat): State
    requires i < |s.access| == |s.owners|
  {
    s.(access := s.access[i := 0], owners := s.owners[i := None])
  }

  ghost function Reserve(s: State, t: nat, evt: Event, expected: nat): State {
    if expected >= MAX_RING_SEQUENCE || s.last != expected then Goto(s, t, Losing(evt, 0))
    else
      var s1 := s.(last := s.last + 1, log := s.log + [evt], fates := s.fates + [InFlight(t)]);
      Goto(s1, t, Claiming(evt, expected + 1))
  }

  ghost function FillNext(s: State, t: nat, evt: Event, r: nat, k: nat): State
    requires Shaped(s) && 0 < r <= s.last && k <= FILL_STORES
  {
    var i := Home(r, s.cap);
    if k == FILL_STORES then
      Goto(s.(words := s.words[i := 2 * r]), t, Releasing(evt, r))
    else if k == PAYLOAD_PARTS && s.records[i].length >= MAX_MESSAGE_BYTES then
      s // the closing NUL would land past the message; RingSafety shows this cannot come up
    else
      Goto(s.(records := s.records[i := FillPart(s.records[i], evt, r, k)]), t, Filling(evt, r, k + 1))
  }

  /** `t`'s write returns the committed word. */
  ghost function Publish(s: State, t: nat, r: nat): State
    requires Shaped(s) && 0 < r <= s.last
  {
    var s1 := Release(s, Home(r, s.cap));
    Goto(s1.(fates := s.fates[r - 1 := Published], finished := s.finished + 1), t, Wrote(2 * r))
  }

  /** `t`'s write counts one loss and returns zero. */
  ghost function Lose(s: State, t: nat, r: nat): State
    requires Shaped(s) && r <= s.last
  {
    var s1 := s.(dropped := (s.dropped + 1) % U64_LIMIT, losses := s.losses + 1, finished := s.finished + 1);
    Goto(s1.(fates := if r == 0 then s.fates else s.fates[r - 1 := Lost]), t, Wrote(0))
  }

  /** The next step of `t`'s `write`. */
  ghost function StepWriter(s: State, t: nat): State
    requires Shaped(s)
  {
    match PcOf(s, t)
    case Reserving(evt, expected) => Reserve(s, t, evt, expected)
    case Claiming(evt, r) =>
      if s.access[Home(r, s.cap)] != 0 then Goto(s, t, Losing(evt, r))
      else Goto(Claim(s, Home(r, s.cap), t, 1), t, Checking(evt, r))
    case Checking(evt, r) =>
      var word := s.words[Home(r, s.cap)];
      if word % 2 != 0 || (word != 0 && word / 2 >= r) then Goto(s, t, Rejecting(evt, r))
      else Goto(s, t, Marking(evt, r))
    case Marking(evt, r) =>
      Goto(s.(words := s.words[Home(r, s.cap) := 2 * r + 1]), t, Filling(evt, r, 0))
    case Filling(evt, r, k) => FillNext(s, t, evt, r, k)
    case Releasing(evt, r) => Publish(s, t, r)
    case Rejecting(evt, r) => Goto(Release(s, Home(r, s.cap)), t, Losing(evt, r))
    case Losing(evt, r) => Lose(s, t, r)
    case _ => s
  }

  /** How an inspector books the slot `i` it copied under `word`. */
  function Classify(snap: Snapshot, max: nat, i: nat, cap: nat, word: nat, copy: Record): Snapshot
    requires 0 < cap && 0 < max && |snap.entries| <= max
  {
    var reservation := word / 2;
    if && word % 2 == 0 && reservation != 0 && reservation <= snap.watermark
       && Home(reservation, cap) == i && copy.sequence == word && copy.length < MAX_MESSAGE_BYTES
    then snap.(entries := Insert(snap.entries, max, copy), seen := snap.seen + [copy])
    else if word % 2 != 0 || copy.length >= MAX_MESSAGE_BYTES || reservation == 0
    then snap.(malformed := snap.malformed + 1)
    else if reservation > snap.watermark then snap.(afterWatermark := snap.afterWatermark + 1)
    else snap.(uncounted := snap.uncounted + 1)
  }

  function Conclude(snap: Snapshot): Snapshot {
    var clean := snap.busy == 0 && snap.malformed == 0 && snap.afterWatermark == 0;
    snap.(status := if !clean then Partial else if snap.entries == [] then Empty else snap.status)
  }

  /** The next step of `t`'s `capture_newest`. */
  ghost function StepInspector(s: State, t: nat): State
    requires Shaped(s)
  {
    match PcOf(s, t)
    case Opening(max) => Goto(s, t, Sampling(NO_SNAPSHOT.(watermark := s.last), max))
    case Sampling(snap, max) =>
      var sampled := snap.(dropped := s.dropped);
      if snap.watermark == 0 then Goto(s, t, Captured(sampled, max))
      else Goto(s, t, Visiting(sampled.(status := Valid), max, 0))
    case Visiting(snap, max, i) =>
      if i == s.cap then Goto(s, t, Captured(Conclude(snap), max))
      else if s.access[i] != 0 then Goto(s, t, Visiting(snap.(busy := snap.busy + 1), max, i + 1))
      else Goto(Claim(s, i, t, 2), t, Loading(snap, max, i))
    case Loading(snap, max, i) =>
      var word := s.words[i];
      if word == 0 then Goto(s, t, Leaving(snap.(emptySlots := snap.emptySlots + 1), max, i))
      else Goto(s, t, Copying(snap, max, i, word, 0, BlankRecord()))
    case Copying(snap, max, i, word, k, copy) =>
      if k == PAYLOAD_PARTS then Goto(s, t, Leaving(Classify(snap, max, i, s.cap, word, copy), max, i))
      else Goto(s, t, Copying(snap, max, i, word, k + 1, CopyPart(copy, s.records[i], k)))
    case Leaving(snap, max, i) => Goto(Release(s, i), t, Visiting(snap, max, i + 1))
    case _ => s
  }

  ghost function Apply(s: State, a: Action): State
    requires Shaped(s)
  {
    match a
    case StartWrite(t, evt) =>
      if Ready(PcOf(s, t)) then Goto(s, t, Reserving(evt, s.last)) else s
    case StartCapture(t, max) =>
      var window := Min(max, WINDOW_LIMIT);
      if !Ready(PcOf(s, t)) then s
      else if window == 0 then Goto(s, t, Captured(NO_SNAPSHOT, 0))
      else Goto(s, t, Opening(window))
    case Advance(t) =>
      var pc := PcOf(s, t);
      if pc.Opening? || pc.Sampling? || pc.Visiting? || InspectorHolds(pc) then StepInspector(s, t)
      else StepWriter(s, t)
  }

  /** A step of `t` that keeps every length leaves the other threads well shaped. */
  lemma OthersShaped(s: State, s': State, t: nat)
    requires Shaped(s)
    requires s'.cap == s.cap == |s'.words| == |s'.access| == |s'.records| == |s'.owners|
    requires s.last <= s'.last == |s'.log| == |s'.fates| <= MAX_RING_SEQUENCE
    requires forall u :: u != t ==> PcOf(s', u) == PcOf(s, u)
    requires PcShape(PcOf(s', t), s'.cap, s'.last)
    ensures Shaped(s')
  {
    forall u ensures PcShape(PcOf(s', u), s'.cap, s'.last) {
      assert PcShape(PcOf(s, u), s.cap, s.last);
    }
  }

  lemma WriterShaped(s: State, t: nat)
    requires Shaped(s)
    ensures Shaped(StepWriter(s, t)) && StepWriter(s, t).cap == s.cap
  {
    var s' := StepWriter(s, t);
    assert PcShape(PcOf(s, t), s.cap, s.last);
    if s' != s {
      OthersShaped(s, s', t);
    }
  }

  lemma InspectorShaped(s: State, t: nat)
    requires Shaped(s)
    ensures Shaped(StepInspector(s, t)) && StepInspector(s, t).cap == s.cap
  {
    var s' := StepInspector(s, t);
    assert PcShape(PcOf(s, t), s.cap, s.last);
    if s' != s {
      OthersShaped(s, s', t);
    }
  }

  lemma ApplyShaped(s: State, a: Action)
    requires Shaped(s)
    ensures Shaped(Apply(s, a)) && Apply(s, a).cap == s.cap
  {
    match a
    case StartWrite(t, evt) => OthersShaped(s, Apply(s, a), t);
    case StartCapture(t, max) => OthersShaped(s, Apply(s, a), t);
    case Advance(t) => WriterShaped(s, t); InspectorShaped(s, t);
  }

  /** The state after a whole list of actions; every interleaving is one such list. */
  ghost function Exec(s: State, actions: seq<Action>): (s': State)
    requires Shaped(s)
    ensures Shaped(s')
    decreases |actions|
  {
    if actions == [] then s
    else
      ApplyShaped(s, actions[0]);
      Exec(Apply(s, actions[0]), actions[1..])
  }
}
