/** The diagnostics service: emitting onto the lanes, the writer loop that empties them into the log
    file, and the shutdown that joins it. */
module DiagnosticsService {
  import opened Words
  import opened Sequences
  import opened RingTypes
  import opened Line
  import opened LogFiles
  import opened Lanes
  import LaneLaw
  import CrashRing
  import RingMachine
  import opened EngineMachine
  import opened EngineTheorems
  import opened EngineView

  /** Every record handed over is one line of the log, in the same order. */
  ghost predicate Rendered(handed: seq<Record>, lines: seq<seq<byte>>) {
    |handed| == |lines| && forall i :: 0 <= i < |handed| ==> LineFor(handed[i], lines[i])
  }

  lemma RenderedMore(handed: seq<Record>, lines: seq<seq<byte>>, rec: Record, line: seq<byte>)
    requires Rendered(handed, lines) && LineFor(rec, line)
    ensures Rendered(handed + [rec], lines + [line])
  {
  }

  datatype ShutdownResult = ShutdownResult(
    drained: nat, leftoverGeneral: nat, leftoverCritical: nat, writerFlushed: bool)

  class Service {
    const general: BoundedLane<StoredRecord>
    const critical: BoundedLane<StoredRecord>
    const log: LogFile
    const ring: CrashRing.CrashRing
    var nextSequence: u64
    var stop: bool
    var writerAlive: bool
    /** Every record handed to `WriteRecord`, in order. */
    ghost var handed: seq<StoredRecord>

    ghost predicate LanesValid()
      reads general, general.slots, critical, critical.slots
    {
      && general != critical && general.slots != critical.slots
      && general.Valid() && critical.Valid() && !general.lossless && critical.lossless
    }

    ghost predicate LogValid()
      reads this`handed, log
    {
      log.Valid() && Rendered(handed, Stream(log.closed, log.current))
    }

    ghost predicate Valid()
      reads this, general, general.slots, critical, critical.slots, log
    {
      LanesValid() && LogValid()
    }

    /** What is queued, in the order a writer left alone with it takes it: the critical lane first. */
    ghost function Pending(): (s: seq<StoredRecord>)
      requires LanesValid()
      reads general, general.slots, critical, critical.slots
      ensures |s| == Backlog()
    {
      critical.Contents() + general.Contents()
    }

    ghost function Backlog(): nat
      reads general, critical
    {
      critical.count + general.count
    }

    /** The records drained and queued: no step of the writer changes their number. */
    ghost function Through(): nat
      reads general, critical
    {
      general.drained + critical.drained + Backlog()
    }

    /** The state of the engine's threads, were the writer at `w` and no producer about. */
    ghost function Seen(w: Writer): Engine
      reads this, general, critical
    {
      Engine(TicketLane(general.Law()), TicketLane(critical.Law()), [], [], w, Tickets(handed), stop)
    }

    /** The crash ring shares no memory with the lanes and the log. */
    ghost predicate RingApart() {
      var own: set<object> := {this, general, general.slots, critical, critical.slots, log};
      own !! {ring, ring.records, ring.sequences, ring.accessStates}
    }

    constructor (generalSlots: nat, criticalSlots: nat, generations: nat, bound: nat, ring: CrashRing.CrashRing)
      requires PowerOfTwoTest(generalSlots) && PowerOfTwoTest(criticalSlots)
      ensures this.ring == ring && RingApart()
      ensures Valid() && log.BelowBound() && fresh(general) && fresh(critical) && fresh(log)
      ensures fresh(general.slots) && fresh(critical.slots)
      ensures general.Contents() == [] && critical.Contents() == [] && handed == [] && !stop
    {
      general := new BoundedLane<StoredRecord>(generalSlots, false);
      critical := new BoundedLane<StoredRecord>(criticalSlots, true);
      log := new LogFile(generations, bound);
      this.ring := ring;
      nextSequence, stop, writerAlive := 0, false, true;
      handed := [];
    }

    /** Delivers one record in the main loop, which closes the generation that reaches the bound. */
    method WriteAndRotate(rec: StoredRecord)
      requires LogValid() && log.BelowBound()
      modifies log, this`handed
      ensures LogValid() && log.BelowBound() && handed == old(handed) + [rec]
    {
      var line := RenderLine(rec);
      LineForLength(rec, line);
      RenderedMore(handed, Stream(log.closed, log.current), rec, line);
      log.Deliver(line);
      handed := handed + [rec];
    }

    /** Delivers one record in the drain, which never rotates. */
    method WriteOnly(rec: StoredRecord)
      requires LogValid()
      modifies log, this`handed
      ensures LogValid() && handed == old(handed) + [rec] && log.closed == old(log.closed)
    {
      var line := RenderLine(rec);
      RenderedMore(handed, Stream(log.closed, log.current), rec, line);
      log.Append(line);
      Associate(Flatten(log.closed), old(log.current), [line]);
      handed := handed + [rec];
    }

    /** Hands a record to its lane: the reserved lane waits for room, the general one makes it. */
    method Route(rec: StoredRecord, wakeups: nat)
      returns (ok: bool, ghost before: LaneLaw.Lane<StoredRecord>, ghost wakes: seq<LaneLaw.Wake<StoredRecord>>)
      requires Valid() && RingApart() && ring.Mirrors()
      modifies general, general.slots, critical, critical.slots
      ensures Valid() && ring.Mirrors()
      ensures SeverityName(rec.level) != "critical" ==>
                && ok && general.Law() == LaneLaw.PushDropOldest(old(general.Law()), rec)
                && critical.Law() == old(critical.Law()) && wakes == []
      ensures SeverityName(rec.level) == "critical" ==>
                && critical.Law() == (if ok then LaneLaw.Accept(before, rec) else LaneLaw.Refuse(before, rec))
                && general.Law() == old(general.Law())
                && LaneLaw.WaitedOut(old(critical.Law()), wakes, before, ok)
      ensures critical.waits == old(critical.waits) + wakes && general.waits == old(general.waits)
    {
      if rec.level == CRITICAL {
        ok, before, wakes := critical.PushBoundedWait(rec, wakeups);
      } else {
        general.PushDropOldest(rec);
        ok, before, wakes := true, critical.Law(), [];
      }
    }

    /** The record of one event, under the next number. */
    method Number(evt: Event) returns (rec: StoredRecord)
      modifies this`nextSequence
      ensures nextSequence == (old(nextSequence) + 1) % U64_LIMIT
      ensures rec.sequence == old(nextSequence) && Carries(rec, evt)
    {
      rec := Stored(evt, nextSequence);
      StoredCarries(evt, nextSequence);
      nextSequence := (nextSequence + 1) % U64_LIMIT;
    }

    /** Writes the event into the crash ring, which touches neither the lanes nor the log. */
    method Mirror(evt: Event, ghost t: nat) returns (copy: nat)
      requires Valid() && RingApart() && ring.Mirrors() && RingMachine.Ready(RingMachine.PcOf(ring.machine, t))
      modifies ring, ring.records, ring.sequences, ring.accessStates
      ensures Valid() && ring.Mirrors() && RingMachine.PcOf(ring.machine, t) == RingMachine.Wrote(copy)
      ensures general.Law() == old(general.Law()) && critical.Law() == old(critical.Law())
      ensures general.waits == old(general.waits) && critical.waits == old(critical.waits)
      ensures copy != 0 ==> 0 < copy / 2 <= ring.machine.last && ring.machine.log[copy / 2 - 1] == evt
                            && ring.machine.fates[copy / 2 - 1] == RingMachine.Published
    {
      copy := ring.Write(evt, t, false);
    }

    /** Numbers one event, mirrors it into the crash ring and hands it to the lane of its severity.
        `copy` is what the ring's write returned, `wakes` how the waits for room ended, `before` the lane as
        the other producers and the writer left it when the call took its last hold of the lock. */
    method Emit(evt: Event, wakeups: nat, ghost t: nat)
      returns (ok: bool, copy: nat, ghost rec: StoredRecord, ghost before: LaneLaw.Lane<StoredRecord>,
               ghost wakes: seq<LaneLaw.Wake<StoredRecord>>)
      requires Valid() && RingApart() && ring.Mirrors() && RingMachine.Ready(RingMachine.PcOf(ring.machine, t))
      modifies this`nextSequence, general, general.slots, critical, critical.slots
      modifies ring, ring.records, ring.sequences, ring.accessStates
      ensures Valid() && nextSequence == (old(nextSequence) + 1) % U64_LIMIT
      ensures ring.Mirrors() && RingMachine.PcOf(ring.machine, t) == RingMachine.Wrote(copy)
      ensures copy != 0 ==> 0 < copy / 2 <= ring.machine.last && ring.machine.log[copy / 2 - 1] == evt
                            && ring.machine.fates[copy / 2 - 1] == RingMachine.Published
      ensures rec.sequence == old(nextSequence) && Carries(rec, evt)
      ensures critical.waits == old(critical.waits) + wakes && general.waits == old(general.waits)
      ensures if SeverityName(evt.level) == "critical" then
                && critical.Law() == (if ok then LaneLaw.Accept(before, rec) else LaneLaw.Refuse(before, rec))
                && LaneLaw.WaitedOut(old(critical.Law()), wakes, before, ok)
                && general.Law() == old(general.Law())
              else
                && ok && general.Law() == LaneLaw.PushDropOldest(old(general.Law()), rec)
                && critical.Law() == old(critical.Law())
    {
      var stored := Number(evt);
      rec := stored;
      copy := Mirror(evt, t);
      ok, before, wakes := Route(stored, wakeups);
    }

    // ----- the writer thread, with no producer running -----

    /** A look at the critical lane: one step of the writer from `w`. */
    method PopCritical(ghost w: Writer, ghost drain: bool, ghost otherwise: Writer) returns (r: Option<StoredRecord>)
      requires LanesValid()
      modifies critical
      ensures LanesValid() && r == if old(critical.Contents()) == [] then None else Some(old(critical.Contents())[0])
      ensures r.None? ==> unchanged(critical)
      ensures r.Some? ==> critical.Contents() == old(critical.Contents())[1..]
      ensures critical.drained + critical.count == old(critical.drained + critical.count)
      ensures Seen(if r.None? then otherwise else WithRecord(r.value, drain)) ==
              TakeCritical(old(Seen(w)), drain, otherwise)
    {
      TookCritical(Seen(w), critical.Law(), drain, otherwise);
      r := critical.TryPop();
    }

    method PopGeneral(ghost w: Writer, ghost drain: bool, ghost otherwise: Writer) returns (r: Option<StoredRecord>)
      requires LanesValid()
      modifies general
      ensures LanesValid() && r == if old(general.Contents()) == [] then None else Some(old(general.Contents())[0])
      ensures r.None? ==> unchanged(general)
      ensures r.Some? ==> general.Contents() == old(general.Contents())[1..]
      ensures general.drained + general.count == old(general.drained + general.count)
      ensures Seen(if r.None? then otherwise else WithRecord(r.value, drain)) ==
              TakeGeneral(old(Seen(w)), drain, otherwise)
    {
      TookGeneral(Seen(w), general.Law(), drain, otherwise);
      r := general.TryPop();
    }

    /** The records as a writer standing at `place`, left alone, hands them over: the critical lane first,
        but for a writer that is past its look at it and finds a general record. */
    ghost function Order(place: Place): seq<StoredRecord>
      requires LanesValid()
      reads general, general.slots, critical, critical.slots
    {
      match place
      case Delivering(rec) => [rec] + Pending()
      case BetweenLooks =>
        if general.Contents() == [] then Pending()
        else [general.Contents()[0]] + (critical.Contents() + general.Contents()[1..])
      case _ => Pending()
    }

    /** The look at the general lane of a writer that is past the critical one. */
    method LookBetween() returns (r: Option<StoredRecord>, ghost steps: seq<Action>)
      requires LanesValid()
      modifies general
      ensures LanesValid() && (r.Some? <==> old(general.count) > 0)
      ensures r.None? ==> unchanged(general)
      ensures r.Some? ==> [r.value] + Pending() == old(Order(BetweenLooks)) && Backlog() == old(Backlog()) - 1
      ensures Through() == old(Through())
      ensures OnlyWrites(steps)
      ensures Seen(if r.None? then CheckStop else WithRecord(r.value, false)) == Exec(old(Seen(LookGeneral)), steps)
    {
      steps := [Write(false)];
      WriteOnce(Seen(LookGeneral), false);
      r := PopGeneral(LookGeneral, false, CheckStop);
    }

    /** Both looks of a round. */
    method LookTop() returns (r: Option<StoredRecord>, ghost steps: seq<Action>)
      requires LanesValid()
      modifies general, critical
      ensures LanesValid() && (r.Some? <==> old(Backlog()) > 0)
      ensures r.None? ==> unchanged(general) && unchanged(critical)
      ensures r.Some? ==> [r.value] + Pending() == old(Pending()) && Backlog() == old(Backlog()) - 1
      ensures Through() == old(Through())
      ensures OnlyWrites(steps)
      ensures Seen(if r.None? then CheckStop else WithRecord(r.value, false)) == Exec(old(Seen(Top)), steps)
    {
      steps := [Write(false)];
      WriteOnce(Seen(Top), false);
      HeadOfSum(critical.Contents(), general.Contents());
      r := PopCritical(Top, false, LookGeneral);
      if r.None? {
        ghost var more;
        r, more := LookBetween();
        ExecJoin(old(Seen(Top)), steps, more);
        steps := steps + more;
      }
    }

    /** The looks that are left of the round: one when the writer is past the critical lane, none when
        it is past both. */
    method Look(place: Place) returns (r: Option<StoredRecord>, ghost steps: seq<Action>)
      requires LanesValid() && (place.AtTop? || place.BetweenLooks? || place.PastLooks?)
      modifies general, critical
      ensures LanesValid()
      ensures r.Some? <==> old(if place.AtTop? then Backlog() > 0 else place.BetweenLooks? && general.count > 0)
      ensures r.None? ==> unchanged(general) && unchanged(critical)
      ensures r.Some? ==> [r.value] + Pending() == old(Order(place)) && Backlog() == old(Backlog()) - 1
      ensures Through() == old(Through())
      ensures OnlyWrites(steps)
      ensures Seen(if r.None? then CheckStop else WithRecord(r.value, false)) == Exec(old(Seen(WriterAt(place))), steps)
    {
      match place
      case AtTop => r, steps := LookTop();
      case BetweenLooks => r, steps := LookBetween();
      case _ => r, steps := None, [];
    }

    /** Whether a writer standing at `place` will still look at every queued record before it reads the
        stop flag. */
    ghost predicate Sweeps(place: Place)
      reads general, critical
    {
      match place
      case BetweenLooks => critical.count == 0 || general.count > 0
      case PastLooks => Backlog() == 0
      case _ => true
    }

    lemma SweepsIsWillSweep(place: Place)
      requires LanesValid()
      ensures Sweeps(place) <==> WillSweep(Seen(WriterAt(place)))
    {
      TicketQueue(general.Law());
      TicketQueue(critical.Law());
    }

    /** One step of the writer that hands over the record it holds. */
    method HandOver(rec: StoredRecord)
      requires LogValid() && log.BelowBound()
      modifies log, this`handed
      ensures LogValid() && log.BelowBound() && handed == old(handed) + [rec]
      ensures Seen(Top) == WriteStep(old(Seen(WithRecord(rec, false))), false)
    {
      TicketsMore(handed, rec);
      WriteAndRotate(rec);
    }

    /** What is left of a round of the main loop: takes the next record and delivers it, if there is one. */
    method Round(place: Place) returns (got: bool, ghost steps: seq<Action>)
      requires Valid() && log.BelowBound() && (place.AtTop? || place.BetweenLooks? || place.PastLooks?)
      modifies this`handed, general, critical, log
      ensures Valid() && log.BelowBound()
      ensures got <==> old(if place.AtTop? then Backlog() > 0 else place.BetweenLooks? && general.count > 0)
      ensures !got ==> unchanged(general) && unchanged(critical) && handed == old(handed)
      ensures got ==> handed + Pending() == old(handed + Order(place)) && Backlog() == old(Backlog()) - 1
      ensures Through() == old(Through())
      ensures OnlyWrites(steps) && Seen(if got then Top else CheckStop) == Exec(old(Seen(WriterAt(place))), steps)
    {
      var r;
      r, steps := Look(place);
      got := r.Some?;
      if got {
        Associate(handed, [r.value], Pending());
        ghost var held := Seen(WithRecord(r.value, false));
        HandOver(r.value);
        WriteOnce(held, false);
        ExecJoin(old(Seen(WriterAt(place))), steps, [Write(false)]);
        steps := steps + [Write(false)];
      }
    }

    /** The writer's timed wait: the stop flag may be set meanwhile, and is by the time `left` is 1. */
    method Park(left: nat) returns (ghost steps: seq<Action>)
      requires !stop && left > 0
      modifies this`stop
      ensures left == 1 ==> stop
      ensures WriterSteps(steps) && Seen(Top) == Exec(old(Seen(CheckStop)), steps)
    {
      stop := *;
      if left == 1 { stop := true; }
      steps := [Write(false)] + (if stop then [SetStop] else []) + [Write(false)];
      Slept(old(Seen(CheckStop)), stop);
    }

    /** A writer that holds a record delivers it, one that is parked wakes up; both go on at the top. */
    method Resume(place: Place) returns (round: Place, ghost steps: seq<Action>)
      requires Valid() && log.BelowBound()
      modifies this`handed, log
      ensures Valid() && log.BelowBound() && (round.AtTop? || round.BetweenLooks? || round.PastLooks?)
      ensures handed + Order(round) == old(handed + Order(place)) && (Sweeps(round) <==> old(Sweeps(place)))
      ensures OnlyWrites(steps) && Seen(WriterAt(round)) == Exec(old(Seen(WriterAt(place))), steps)
    {
      round, steps := place, [];
      if place.Delivering? {
        Associate(handed, [place.rec], Pending());
        WriteOnce(Seen(WriterAt(place)), false);
        HandOver(place.rec);
        round, steps := AtTop, [Write(false)];
      } else if place.Asleep? {
        WriteOnce(Seen(Parked), false);
        round, steps := AtTop, [Write(false)];
      }
    }

    /** A round of the main loop from `round`: a record delivered, a wait while the stop flag is not set,
        or the set flag read after looks that found nothing. */
    method Turn(round: Place, left: nat) returns (done: bool, parked: bool, ghost steps: seq<Action>)
      requires Valid() && log.BelowBound() && (left == 0 ==> stop)
      requires round.AtTop? || round.BetweenLooks? || round.PastLooks?
      modifies this`handed, this`stop, general, critical, log
      ensures Valid() && log.BelowBound() && handed + Pending() == old(handed + Order(round))
      ensures done ==> stop && old(stop) && Backlog() == old(Backlog()) && (old(Sweeps(round)) ==> Backlog() == 0)
      ensures parked ==> !done && !old(stop) && left > 0 && (left == 1 ==> stop) && Backlog() == old(Backlog())
      ensures !done && !parked ==> stop == old(stop) && Backlog() < old(Backlog())
      ensures old(stop && !Sweeps(round)) ==> done
      ensures Through() == old(Through())
      ensures WriterSteps(steps) && Seen(if done then CheckStop else Top) == Exec(old(Seen(WriterAt(round))), steps)
    {
      var got;
      got, steps := Round(round);
      done, parked := !got && stop, !got && !stop;
      if parked {
        ghost var more := Park(left);
        ExecJoin(old(Seen(WriterAt(round))), steps, more);
        steps := steps + more;
      }
    }

    /** The main loop from its top, until it reads a set stop flag after looks that found nothing. */
    method LoopFromTop(parks: nat) returns (ghost steps: seq<Action>)
      requires Valid() && log.BelowBound() && (parks == 0 ==> stop)
      modifies this`handed, this`stop, general, critical, log
      ensures Valid() && log.BelowBound() && stop && Backlog() == 0 && handed + Pending() == old(handed + Pending())
      ensures Through() == old(Through())
      ensures WriterSteps(steps) && Seen(CheckStop) == Exec(old(Seen(Top)), steps)
    {
      ghost var s0, all := Seen(Top), handed + Pending();
      var done, left := false, parks;
      steps := [];
      while !done
        invariant Valid() && log.BelowBound() && (left == 0 ==> stop)
        invariant handed + Pending() == all && (done ==> stop && Backlog() == 0)
        invariant Through() == old(Through())
        invariant WriterSteps(steps) && Seen(if done then CheckStop else Top) == Exec(s0, steps)
        decreases !done, left, Backlog()
      {
        var parked;
        ghost var more;
        done, parked, more := Turn(AtTop, left);
        ExecJoin(s0, steps, more);
        steps := steps + more;
        if parked { left := left - 1; }
      }
    }

    /** What is left of the round the writer is in. */
    method FinishRound(place: Place, parks: nat) returns (done: bool, left: nat, ghost steps: seq<Action>)
      requires Valid() && log.BelowBound() && (parks == 0 ==> stop)
      modifies this`handed, this`stop, general, critical, log
      ensures Valid() && log.BelowBound() && (left == 0 ==> stop) && (done ==> stop)
      ensures handed + Pending() == old(handed + Order(place)) && Through() == old(Through())
      ensures old(!stop || Sweeps(place)) && done ==> Backlog() == 0
      ensures old(stop && !Sweeps(place)) ==> done && Backlog() == old(Backlog())
      ensures WriterSteps(steps) && Seen(if done then CheckStop else Top) == Exec(old(Seen(WriterAt(place))), steps)
    {
      ghost var s0, more := Seen(WriterAt(place)), [];
      var round, parked;
      round, steps := Resume(place);
      done, parked, more := Turn(round, parks);
      left := if parked then parks - 1 else parks;
      ExecJoin(s0, steps, more);
      steps := steps + more;
    }

    /** The main loop from wherever the writer stands: it ends with nothing queued unless it was caught,
        with stop set, past its look at a lane that now holds a record. */
    method MainLoop(place: Place, parks: nat) returns (ghost steps: seq<Action>)
      requires Valid() && log.BelowBound() && (parks == 0 ==> stop)
      modifies this`handed, this`stop, general, critical, log
      ensures Valid() && log.BelowBound() && stop && handed + Pending() == old(handed + Order(place))
      ensures Backlog() == old(if !stop || Sweeps(place) then 0 else Backlog()) && Through() == old(Through())
      ensures WriterSteps(steps) && Seen(CheckStop) == Exec(old(Seen(WriterAt(place))), steps)
    {
      var done, left;
      done, left, steps := FinishRound(place, parks);
      if !done {
        ghost var more := LoopFromTop(left);
        ExecJoin(old(Seen(WriterAt(place))), steps, more);
        steps := steps + more;
      }
    }

    // ----- the flush and the shutdown -----

    /** The flush's look at the general lane, after its look at the critical one found nothing. */
    method DrainBetween() returns (r: Option<StoredRecord>, ghost steps: seq<Action>)
      requires LanesValid() && critical.count == 0
      modifies general
      ensures LanesValid() && (r.Some? <==> old(general.count) > 0)
      ensures r.None? ==> unchanged(general)
      ensures r.Some? ==> [r.value] + Pending() == old(Pending()) && Backlog() == old(Backlog()) - 1
      ensures Through() == old(Through()) && OnlyWrites(steps)
      ensures Seen(if r.None? then Done else WithRecord(r.value, true)) == Exec(old(Seen(DrainGeneral)), steps)
    {
      steps := [Write(false)];
      WriteOnce(Seen(DrainGeneral), false);
      HeadOfSum(critical.Contents(), general.Contents());
      r := PopGeneral(DrainGeneral, true, Done);
      HeadOfSum(critical.Contents(), general.Contents());
    }

    /** Both looks of the flush. */
    method LookDraining() returns (r: Option<StoredRecord>, ghost steps: seq<Action>)
      requires LanesValid()
      modifies general, critical
      ensures LanesValid() && (r.Some? <==> old(Backlog()) > 0)
      ensures r.None? ==> unchanged(general) && unchanged(critical)
      ensures r.Some? ==> [r.value] + Pending() == old(Pending()) && Backlog() == old(Backlog()) - 1
      ensures Through() == old(Through()) && OnlyWrites(steps)
      ensures Seen(if r.None? then Done else WithRecord(r.value, true)) == Exec(old(Seen(DrainCritical)), steps)
    {
      steps := [Write(false)];
      WriteOnce(Seen(DrainCritical), false);
      HeadOfSum(critical.Contents(), general.Contents());
      r := PopCritical(DrainCritical, true, DrainGeneral);
      if r.None? {
        ghost var more;
        r, more := DrainBetween();
        ExecJoin(old(Seen(DrainCritical)), steps, more);
        steps := steps + more;
      }
    }

    /** One step of the flush that hands over the record it holds. */
    method HandOverDraining(rec: StoredRecord)
      requires LogValid()
      modifies log, this`handed
      ensures LogValid() && handed == old(handed) + [rec] && log.closed == old(log.closed)
      ensures Seen(DrainTop) == WriteStep(old(Seen(WithRecord(rec, true))), false)
    {
      TicketsMore(handed, rec);
      WriteOnly(rec);
    }

    /** One round of the flush with time left: takes and delivers the next record, if there is one. */
    method DrainNext() returns (got: bool, ghost steps: seq<Action>)
      requires Valid()
      modifies this`handed, general, critical, log
      ensures Valid() && log.closed == old(log.closed) && (got <==> old(Backlog()) > 0)
      ensures handed + Pending() == old(handed + Pending())
      ensures Backlog() == if got then old(Backlog()) - 1 else 0
      ensures !got ==> log.written == old(log.written)
      ensures Through() == old(Through()) && OnlyWrites(steps)
      ensures Seen(if got then DrainTop else Done) == Exec(old(Seen(DrainTop)), steps)
    {
      ghost var s0 := Seen(DrainTop);
      WriteOnce(s0, false);
      var r;
      r, steps := LookDraining();
      ExecJoin(s0, [Write(false)], steps);
      steps := [Write(false)] + steps;
      got := r.Some?;
      if got {
        Associate(handed, [r.value], Pending());
        ghost var held := Seen(WithRecord(r.value, true));
        HandOverDraining(r.value);
        WriteOnce(held, false);
        ExecJoin(s0, steps, [Write(false)]);
        steps := steps + [Write(false)];
      }
    }

    /** The flush, until the lanes are empty or the deadline passes: `budget` is how many records it has
        time for. It never rotates. */
    method Drain(budget: nat) returns (ghost steps: seq<Action>)
      requires Valid()
      modifies this`handed, general, critical, log
      ensures Valid() && log.closed == old(log.closed) && handed + Pending() == old(handed + Pending())
      ensures Backlog() == Max(old(Backlog()) - budget, 0)
      ensures old(Backlog()) == 0 ==> log.written == old(log.written)
      ensures Through() == old(Through())
      ensures OnlyWrites(steps) && Seen(Done) == Exec(old(Seen(DrainTop)), steps)
    {
      ghost var s0, all := Seen(DrainTop), handed + Pending();
      var more, left := true, budget;
      steps := [];
      while more && left > 0
        invariant Valid() && log.closed == old(log.closed) && handed + Pending() == all
        invariant 0 <= left <= budget && (if more then budget - left + Backlog() == old(Backlog()) else Backlog() == 0)
        invariant !more ==> old(Backlog()) < budget
        invariant old(Backlog()) == 0 ==> log.written == old(log.written)
        invariant Through() == old(Through())
        invariant OnlyWrites(steps) && Seen(if more then DrainTop else Done) == Exec(s0, steps)
        decreases more, left
      {
        ghost var next;
        more, next := DrainNext();
        ExecJoin(s0, steps, next);
        steps := steps + next;
        if more { left := left - 1; }
      }
      if more {
        WriteOnce(Seen(DrainTop), true);
        ExecJoin(s0, steps, [Write(true)]);
        steps := steps + [Write(true)];
      }
    }

    /** What follows a set stop flag: the flush, and the end of the writer thread. */
    method FlushAndEnd(budget: nat) returns (ghost steps: seq<Action>)
      requires Valid() && stop
      modifies this`handed, this`writerAlive, general, critical, log
      ensures Valid() && !writerAlive && handed + Pending() == old(handed + Pending())
      ensures Backlog() == Max(old(Backlog()) - budget, 0) && Through() == old(Through())
      ensures old(Backlog()) == 0 ==> log.written == old(log.written)
      ensures OnlyWrites(steps) && Seen(Done) == Exec(old(Seen(CheckStop)), steps)
    {
      ghost var s0 := Seen(CheckStop);
      WriteOnce(s0, false);
      steps := Drain(budget);
      ExecJoin(s0, [Write(false)], steps);
      steps := [Write(false)] + steps;
      writerAlive := false;
    }

    /** The writer thread from wherever it stands: `parks` bounds how often it parks before the stop flag
        is set. It leaves nothing behind unless it was caught, with stop set, past its look at a lane that
        now holds a record; then it leaves what the flush has no time for. */
    method WriterLoop(place: Place, parks: nat, budget: nat) returns (ghost steps: seq<Action>)
      requires Valid() && log.BelowBound() && (parks == 0 ==> stop)
      modifies this`handed, this`stop, this`writerAlive, general, critical, log
      ensures Valid() && stop && !writerAlive && handed + Pending() == old(handed + Order(place))
      ensures Backlog() == if old(!stop || Sweeps(place)) then 0 else Max(old(Backlog()) - budget, 0)
      ensures old(!stop || Sweeps(place)) ==> log.BelowBound()
      ensures Through() == old(Through())
      ensures WriterSteps(steps) && Seen(Done) == Exec(old(Seen(WriterAt(place))), steps)
    {
      steps := MainLoop(place, parks);
      ghost var more := FlushAndEnd(budget);
      ExecJoin(old(Seen(WriterAt(place))), steps, more);
      steps := steps + more;
    }

    /** Sets the stop flag and joins the writer, which stands at `place`; no producer is running. Whether
        anything can be left behind depends on where the flag caught the writer: with no time for the
        flush nothing is left exactly when the writer will still look at every queued record. */
    method Shutdown(place: Place, budget: nat) returns (r: ShutdownResult, ghost steps: seq<Action>)
      requires Valid() && log.BelowBound()
      modifies this`handed, this`stop, this`writerAlive, general, critical, log
      ensures Valid() && !writerAlive && handed + Pending() == old(handed + Order(place))
      ensures r.leftoverGeneral == |general.Contents()| && r.leftoverCritical == |critical.Contents()|
      ensures r.leftoverGeneral + r.leftoverCritical ==
              if old(Sweeps(place)) then 0 else Max(old(Backlog()) - budget, 0)
      ensures r.drained == old(Backlog()) - (r.leftoverGeneral + r.leftoverCritical)
      ensures r.writerFlushed <==> old(Sweeps(place)) || old(Backlog()) <= budget
      ensures WriterSteps(steps) && Seen(Done) == Exec(Apply(old(Seen(WriterAt(place))), SetStop), steps)
    {
      var before := general.drained + critical.drained;
      stop := true;
      steps := WriterLoop(place, 0, budget);
      r := ShutdownResult((general.drained + critical.drained) - before, general.count, critical.count,
                          general.count == 0 && critical.count == 0);
    }
  }
}
