/** The stored records of the service as the tickets of the engine, and the places of its writer. */
module EngineView {
  import opened Words
  import opened RingTypes
  import LaneLaw
  import opened EngineMachine

  const CRITICAL: byte := 5

  /** A stored record's length leaves room for the terminator in its message. */
  type StoredRecord = r: Record | r.length < MAX_MESSAGE_BYTES
    witness Record(0, 0, 0, 0, 0, 0, 0, seq(MAX_MESSAGE_BYTES, _ => 0))

  /** The fixed-size record an emit stores. */
  function Stored(evt: Event, number: u64): StoredRecord {
    Record(number, evt.timestamp, evt.id, evt.source, evt.correlation, evt.level,
           CopiedLength(evt.text), Padded(evt.text))
  }

  /** The record an emit stores shows its event, under its own number. */
  lemma StoredCarries(evt: Event, number: u64)
    ensures Stored(evt, number).sequence == number && Carries(Stored(evt, number), evt)
  {
  }

  function TicketOf(rec: Record): Ticket {
    Ticket(rec.sourceValue, rec.sequence, rec.level == CRITICAL)
  }

  function Tickets(records: seq<StoredRecord>): (ts: seq<Ticket>)
    ensures |ts| == |records|
  {
    seq(|records|, i requires 0 <= i < |records| => TicketOf(records[i]))
  }

  function TicketLane(l: LaneLaw.Lane<StoredRecord>): LaneLaw.Lane<Ticket> {
    LaneLaw.Lane(l.capacity, Tickets(l.accepted), l.fates, Tickets(l.overflowed))
  }

  lemma TicketsMore(records: seq<StoredRecord>, rec: StoredRecord)
    ensures Tickets(records + [rec]) == Tickets(records) + [TicketOf(rec)]
  {
  }

  lemma TicketQueue(l: LaneLaw.Lane<StoredRecord>)
    ensures LaneLaw.Queued(TicketLane(l)) == Tickets(LaneLaw.Queued(l))
  {
  }

  /** The wakes of the producer `p`, each in the lane it found: what other threads did in between is all
      in there. */
  function Woken(s: Engine, p: nat, wakes: seq<LaneLaw.Wake<Ticket>>): Engine
    requires p < |s.producers|
    decreases |wakes|
  {
    if wakes == [] then s
    else Woken(WakeStep(s.(critical := wakes[0].found), p, wakes[0].timedOut), p, wakes[1..])
  }

  /** While every wake finds the lane full, the producer goes on waiting. */
  lemma {:induction false} WokenToFull(s: Engine, p: nat, wakes: seq<LaneLaw.Wake<Ticket>>, last: LaneLaw.Wake<Ticket>)
    requires p < |s.producers| && s.producers[p].Waiting? && LaneLaw.AllFull(wakes)
    ensures Woken(s, p, wakes + [last]) == WakeStep(s.(critical := last.found), p, last.timedOut)
    decreases |wakes|
  {
    if wakes == [] {
      assert [last][1..] == [] && wakes + [last] == [last];
    } else {
      assert (wakes + [last])[1..] == wakes[1..] + [last];
      assert LaneLaw.AllFull(wakes[1..]);
      WokenToFull(s.(critical := wakes[0].found), p, wakes[1..], last);
    }
  }

  /** A bounded push as its contract has it is the push and the wakes of one producer of the machine. */
  lemma PushAndWakes(s: Engine, p: nat, wakes: seq<LaneLaw.Wake<Ticket>>, before: LaneLaw.Lane<Ticket>, ok: bool)
    requires p < |s.producers| && s.producers[p].Holding? && s.producers[p].ticket.critical
    requires LaneLaw.WaitedOut(s.critical, wakes, before, ok)
    ensures var t, s' := s.producers[p].ticket, Woken(PushStep(s, p), p, wakes);
            && s'.critical == (if ok then LaneLaw.Accept(before, t) else LaneLaw.Refuse(before, t))
            && s'.producers == s.producers[p := Idle] && s'.general == s.general
  {
    if wakes != [] {
      var n := |wakes| - 1;
      assert wakes == wakes[..n] + [wakes[n]];
      WokenToFull(PushStep(s, p), p, wakes[..n], wakes[n]);
    }
  }

  function WithRecord(rec: StoredRecord, drain: bool): Writer {
    if drain then DrainWriting(TicketOf(rec)) else Writing(TicketOf(rec))
  }

  /** A look at the critical lane, in records. */
  lemma TookCritical(s: Engine, l: LaneLaw.Lane<StoredRecord>, drain: bool, otherwise: Writer)
    requires s.critical == TicketLane(l)
    ensures var q := LaneLaw.Queued(l);
            TakeCritical(s, drain, otherwise) ==
            if q == [] then s.(writer := otherwise)
            else s.(critical := TicketLane(LaneLaw.Popped(l)), writer := WithRecord(q[0], drain))
  {
    TicketQueue(l);
  }

  lemma TookGeneral(s: Engine, l: LaneLaw.Lane<StoredRecord>, drain: bool, otherwise: Writer)
    requires s.general == TicketLane(l)
    ensures var q := LaneLaw.Queued(l);
            TakeGeneral(s, drain, otherwise) ==
            if q == [] then s.(writer := otherwise)
            else s.(general := TicketLane(LaneLaw.Popped(l)), writer := WithRecord(q[0], drain))
  {
    TicketQueue(l);
  }

  /** Where the writer thread stands in its main loop. */
  datatype Place = AtTop | BetweenLooks | PastLooks | Delivering(rec: StoredRecord) | Asleep

  function WriterAt(place: Place): Writer {
    match place
    case AtTop => Top
    case BetweenLooks => LookGeneral
    case PastLooks => CheckStop
    case Delivering(rec) => Writing(TicketOf(rec))
    case Asleep => Parked
  }

  lemma WriteOnce(s: Engine, timeUp: bool)
    ensures Exec(s, [Write(timeUp)]) == WriteStep(s, timeUp)
  {
    assert [Write(timeUp)][1..] == [];
  }

  lemma {:induction false} ExecJoin(s: Engine, a: seq<Action>, b: seq<Action>)
    ensures Exec(s, a + b) == Exec(Exec(s, a), b)
    decreases |a|
  {
    if a == [] {
      assert a + b == b;
    } else {
      assert (a + b)[1..] == a[1..] + b;
      ExecJoin(Apply(s, a[0]), a[1..], b);
    }
  }

  /** Steps of the writer thread, and of whoever sets the stop flag. */
  predicate WriterSteps(actions: seq<Action>) {
    forall i :: 0 <= i < |actions| ==> actions[i].Write? || actions[i].SetStop?
  }

  /** Parking, the stop flag set meanwhile or not, and waking up. */
  lemma Slept(s: Engine, stop: bool)
    requires s.writer == CheckStop && !s.stop
    ensures Exec(s, [Write(false)] + (if stop then [SetStop] else []) + [Write(false)]) ==
            s.(writer := Top, stop := stop)
  {
    var middle: seq<Action> := if stop then [SetStop] else [];
    WriteOnce(s, false);
    ExecJoin(s, [Write(false)], middle);
    ExecJoin(s, [Write(false)] + middle, [Write(false)]);
    WriteOnce(s.(writer := Parked, stop := stop), false);
    if stop { assert [SetStop][1..] == []; }
  }
}
