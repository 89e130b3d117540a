/** What a walk over the ring cannot miss while other threads write. */
module RingCoverage {
  import opened Words
  import opened RingTypes
  import opened RingWindow
  import opened RingMachine
  import opened RingSafety
  import opened RingTheorems

  /** `snap` shows a record from slot `j` of reservation `r` or a later one, or has counted a slot it
      could not read. */
  predicate Met(snap: Snapshot, cap: nat, j: nat, r: nat)
    requires 0 < cap
  {
    || r == 0
    || snap.busy + snap.afterWatermark > 0
    || exists x :: x in snap.seen && HomeOf(x, cap) == j && x.sequence / 2 >= r
  }

  /** How many slots an inspector on its walk has booked. */
  function Reach(pc: Pc, cap: nat): nat {
    match pc
    case Visiting(_, _, i) => i
    case Loading(_, _, i) => i
    case Copying(_, _, i, _, _, _) => i
    case Leaving(_, _, i) => i + 1
    case Captured(_, _) => cap
    case _ => 0
  }

  predicate Walking(pc: Pc) {
    pc.Visiting? || InspectorHolds(pc) || pc.Captured?
  }

  /** Since the words were `base`, no slot has gone back and `t` has met what its booked slots held. */
  ghost predicate Covers(s: State, base: seq<nat>, t: nat) {
    && Shaped(s) && |base| == s.cap && Walking(PcOf(s, t))
    && (forall j :: 0 <= j < s.cap ==> s.words[j] / 2 >= base[j] / 2)
    && (forall j :: 0 <= j < Reach(PcOf(s, t), s.cap) && j < s.cap ==>
          Met(PcOf(s, t).snap, s.cap, j, base[j] / 2))
  }

  /** Booking a slot forgets nothing that was met in earlier ones. */
  lemma BookingKeepsMet(snap: Snapshot, max: nat, i: nat, cap: nat, word: nat, copy: Record, j: nat, r: nat)
    requires 0 < cap && 0 < max && |snap.entries| <= max && Met(snap, cap, j, r)
    ensures Met(Classify(snap, max, i, cap, word, copy), cap, j, r)
  {
    var booked := Classify(snap, max, i, cap, word, copy);
    if r > 0 && snap.busy + snap.afterWatermark == 0 {
      var x :| x in snap.seen && HomeOf(x, cap) == j && x.sequence / 2 >= r;
      assert x in booked.seen;
    }
  }

  /** A slot whose copy is booked without complaint is met. */
  lemma BookedIsMet(snap: Snapshot, max: nat, i: nat, cap: nat, word: nat, copy: Record, r: nat)
    requires 0 < cap && 0 < max && |snap.entries| <= max && r <= word / 2
    requires var booked := Classify(snap, max, i, cap, word, copy);
             booked.malformed == snap.malformed && booked.uncounted == snap.uncounted
    ensures Met(Classify(snap, max, i, cap, word, copy), cap, i, r)
  {
    var booked := Classify(snap, max, i, cap, word, copy);
    if booked.afterWatermark == snap.afterWatermark {
      assert booked.seen == snap.seen + [copy];
      assert copy in booked.seen;
    }
  }

  /** A finished copy of a held slot is booked without complaint. */
  lemma NoComplaint(s: State, t: nat)
    requires Inv(s) && PcOf(s, t).Copying? && PcOf(s, t).k == PAYLOAD_PARTS
    ensures var pc := PcOf(s, t);
            && 0 < pc.max && |pc.snap.entries| <= pc.max && pc.word == s.words[pc.i]
            && var booked := Classify(pc.snap, pc.max, pc.i, s.cap, pc.word, pc.copy);
               booked.malformed == pc.snap.malformed && booked.uncounted == pc.snap.uncounted
  {
    assert ThreadOk(s, t);
    var pc := PcOf(s, t);
    BookReceipt(s, s, pc.snap, pc.max, pc.i, pc.copy);
  }

  lemma BookCovers(s: State, base: seq<nat>, t: nat)
    requires Inv(s) && Covers(s, base, t)
    requires PcOf(s, t).Copying? && PcOf(s, t).k == PAYLOAD_PARTS
    ensures Covers(StepInspector(s, t), base, t)
  {
    InspectorShaped(s, t);
    NoComplaint(s, t);
    var pc := PcOf(s, t);
    var i, booked := pc.i, Classify(pc.snap, pc.max, pc.i, s.cap, pc.word, pc.copy);
    assert PcOf(StepInspector(s, t), t) == Leaving(booked, pc.max, i);
    forall j | 0 <= j < i + 1 && j < s.cap ensures Met(booked, s.cap, j, base[j] / 2) {
      if j < i {
        BookingKeepsMet(pc.snap, pc.max, i, s.cap, pc.word, pc.copy, j, base[j] / 2);
      } else {
        BookedIsMet(pc.snap, pc.max, i, s.cap, pc.word, pc.copy, base[i] / 2);
      }
    }
  }

  predicate StillWalking(s: State, t: nat) {
    var pc := PcOf(s, t);
    Inspecting(pc) && Walking(pc) && (pc.Copying? ==> pc.k < PAYLOAD_PARTS)
  }

  /** What any other step of the walk does to the words and to the snapshot. */
  lemma WalkKeeps(s: State, t: nat)
    requires Shaped(s) && StillWalking(s, t)
    ensures var s' := StepInspector(s, t);
            var pc, after := PcOf(s, t), PcOf(s', t);
            && s'.words == s.words && s'.cap == s.cap && Walking(after)
            && after.snap.seen == pc.snap.seen
            && after.snap.busy + after.snap.afterWatermark >= pc.snap.busy + pc.snap.afterWatermark
            && Reach(after, s.cap) <= Reach(pc, s.cap) + 1
  {
    assert PcShape(PcOf(s, t), s.cap, s.last);
  }

  /** The slot such a step books was claimed by another thread or empty. */
  lemma WalkBooks(s: State, t: nat, i: nat)
    requires Inv(s) && StillWalking(s, t) && i < s.cap && i == Reach(PcOf(s, t), s.cap)
    ensures var after := PcOf(StepInspector(s, t), t);
            Reach(after, s.cap) == i + 1 ==> after.snap.busy > 0 || s.words[i] == 0
  {
    assert ThreadOk(s, t);
  }

  /** Every other step of the walk keeps what was met and meets the slot it books. */
  lemma WalkCovers(s: State, base: seq<nat>, t: nat)
    requires Inv(s) && Covers(s, base, t) && StillWalking(s, t)
    ensures Covers(StepInspector(s, t), base, t)
  {
    InspectorShaped(s, t);
    WalkKeeps(s, t);
    var pc, after := PcOf(s, t), PcOf(StepInspector(s, t), t);
    forall j | 0 <= j < Reach(after, s.cap) && j < s.cap ensures Met(after.snap, s.cap, j, base[j] / 2) {
      if j < Reach(pc, s.cap) {
        assert Met(pc.snap, s.cap, j, base[j] / 2);
      } else {
        WalkBooks(s, t, j);
      }
    }
  }

  lemma StepCovers(s: State, base: seq<nat>, a: Action, t: nat)
    requires Inv(s) && Covers(s, base, t) && (a.t == t ==> a.Advance?)
    ensures Covers(Apply(s, a), base, t)
  {
    ApplyShaped(s, a);
    EveryPc(s, t);
    if a.t == t && Inspecting(PcOf(s, t)) {
      assert ThreadOk(s, t);
      if StillWalking(s, t) { WalkCovers(s, base, t); } else { BookCovers(s, base, t); }
    } else {
      forall j | 0 <= j < s.cap ensures Apply(s, a).words[j] / 2 >= base[j] / 2 {
        StepNeverGoesBack(s, a, j);
      }
      if a.t != t { OthersDoNotMove(s, a, t); }
    }
  }

  lemma {:induction false} RunCovers(s: State, base: seq<nat>, actions: seq<Action>, t: nat)
    requires Inv(s) && Covers(s, base, t)
    requires forall a :: a in actions && a.t == t ==> a.Advance?
    ensures Covers(Exec(s, actions), base, t)
    decreases |actions|
  {
    if actions != [] {
      ApplyKeepsInv(s, actions[0]);
      StepCovers(s, base, actions[0], t);
      RunCovers(Apply(s, actions[0]), base, actions[1..], t);
    }
  }

  /** A capture that met no busy and no later slot misses nothing, whatever the other threads write
      meanwhile: each slot that showed a reservation when the walk began is met with a whole record
      of that reservation or a newer one. */
  lemma NothingMissed(s0: State, actions: seq<Action>, t: nat, i: nat)
    requires Inv(s0) && i < s0.cap && s0.words[i] / 2 > 0
    requires PcOf(s0, t).Visiting? && PcOf(s0, t).i == 0
    requires forall a :: a in actions && a.t == t ==> a.Advance?
    requires var pc := PcOf(Exec(s0, actions), t);
             pc.Captured? && pc.snap.busy == pc.snap.afterWatermark == 0
    ensures var snap := PcOf(Exec(s0, actions), t).snap;
            exists x :: x in snap.seen && HomeOf(x, s0.cap) == i && x.sequence / 2 >= s0.words[i] / 2
                        && Genuine(Exec(s0, actions), x, snap.watermark)
  {
    RunCovers(s0, s0.words, actions, t);
    RunInv(s0, actions);
    ExecKeepsCap(s0, actions);
    var s := Exec(s0, actions);
    assert ThreadOk(s, t);
    var snap := PcOf(s, t).snap;
    assert Met(snap, s.cap, i, s0.words[i] / 2);
  }

  /** A record a window saw is in it, unless the window is full of records of later reservations. */
  lemma SeenOrOutdone(entries: seq<Record>, seen: seq<Record>, max: nat, x: Record)
    requires TopWindow(entries, seen, max) && x in seen
    requires forall y :: y in seen ==> y.sequence % 2 == 0
    ensures x in entries || (|entries| == max && forall e :: e in entries ==> e.sequence / 2 > x.sequence / 2)
  {
    if x !in entries {
      forall e | e in entries ensures e.sequence / 2 > x.sequence / 2 {
        var k :| 0 <= k < |entries| && entries[k] == e;
        assert e.sequence >= entries[max - 1].sequence > x.sequence;
        assert e in seen;
      }
    }
  }

  lemma CapturedWindow(s: State, t: nat)
    requires Inv(s) && PcOf(s, t).Captured? && PcOf(s, t).snap.seen != []
    ensures var pc := PcOf(s, t);
            TopWindow(pc.snap.entries, pc.snap.seen, pc.max) && forall x :: x in pc.snap.seen ==> x.sequence % 2 == 0
  {
    assert ThreadOk(s, t);
    var snap := PcOf(s, t).snap;
    forall x | x in snap.seen ensures x.sequence % 2 == 0 {
      assert Genuine(s, x, snap.watermark);
    }
  }

  /** For the caller: the record of each such slot, or a newer one of the same slot, is in the result,
      or the result is full of newer records still. */
  lemma ReturnedOrOutdone(s0: State, actions: seq<Action>, t: nat, i: nat)
    requires Inv(s0) && i < s0.cap && s0.words[i] / 2 > 0
    requires PcOf(s0, t).Visiting? && PcOf(s0, t).i == 0
    requires forall a :: a in actions && a.t == t ==> a.Advance?
    requires var pc := PcOf(Exec(s0, actions), t);
             pc.Captured? && pc.snap.busy == pc.snap.afterWatermark == 0
    ensures var pc := PcOf(Exec(s0, actions), t);
            var r := s0.words[i] / 2;
            || (exists e :: e in pc.snap.entries && HomeOf(e, s0.cap) == i && e.sequence / 2 >= r)
            || (|pc.snap.entries| == pc.max && forall e :: e in pc.snap.entries ==> e.sequence / 2 > r)
  {
    NothingMissed(s0, actions, t, i);
    RunInv(s0, actions);
    ExecKeepsCap(s0, actions);
    var s := Exec(s0, actions);
    CapturedWindow(s, t);
    var pc := PcOf(s, t);
    var x :| x in pc.snap.seen && HomeOf(x, s0.cap) == i && x.sequence / 2 >= s0.words[i] / 2;
    SeenOrOutdone(pc.snap.entries, pc.snap.seen, pc.max, x);
  }
}
