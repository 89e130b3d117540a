/** What the diagnostics engine promises, over every run. */
module EngineTheorems {
  import opened LaneLaw
  import opened Lanes
  import opened EngineMachine
  import opened EngineSafety

  function Run(producers: nat, generalSlots: nat, criticalSlots: nat, actions: seq<Action>): Engine {
    Exec(Init(producers, generalSlots, criticalSlots), actions)
  }

  lemma RunKeepsInv(producers: nat, generalSlots: nat, criticalSlots: nat, actions: seq<Action>)
    requires 0 < generalSlots && 0 < criticalSlots
    ensures Inv(Run(producers, generalSlots, criticalSlots, actions))
  {
    InitInv(producers, generalSlots, criticalSlots);
    RunInv(Init(producers, generalSlots, criticalSlots), actions);
  }

  // ----- conservation -----

  lemma {:induction false} OfLaneJoin(a: seq<Ticket>, b: seq<Ticket>, critical: bool)
    ensures OfLane(a + b, critical) == OfLane(a, critical) + OfLane(b, critical)
    decreases |b|
  {
    if b == [] {
      assert a + b == a;
    } else {
      var n := |b| - 1;
      assert (a + b)[..|a + b| - 1] == a + b[..n];
      OfLaneJoin(a, b[..n], critical);
    }
  }

  /** Every record emitted on a lane is handed to the sink, with the writer, lost by the lane, queued
      or still with its producer: nothing is counted twice and nothing is missing. */
  lemma Conservation(producers: nat, generalSlots: nat, criticalSlots: nat, actions: seq<Action>, critical: bool)
    requires 0 < generalSlots && 0 < criticalSlots
    ensures var s := Run(producers, generalSlots, criticalSlots, actions); var l := LaneOf(s, critical);
            |OfLane(s.issued, critical)| ==
            |OfLane(s.handed, critical)| + |OfLane(InHand(s.writer), critical)|
            + Count(l.fates, false) + |l.overflowed| + |Queued(l)| + InFlight(s.producers, critical)
  {
    var s := Run(producers, generalSlots, criticalSlots, actions);
    RunKeepsInv(producers, generalSlots, criticalSlots, actions);
    OfLaneJoin(s.handed, InHand(s.writer), critical);
    CountSplits(LaneOf(s, critical).fates);
    assert Counted(s, critical) && HandedInv(s, critical);
  }

  ghost predicate Quiescent(s: Engine) {
    (forall p :: 0 <= p < |s.producers| ==> s.producers[p].Idle?) && InHand(s.writer) == []
  }

  lemma {:induction false} IdleInFlight(ps: seq<Producer>, critical: bool)
    requires forall p :: 0 <= p < |ps| ==> ps[p].Idle?
    ensures InFlight(ps, critical) == 0
  {
    if ps != [] { IdleInFlight(ps[..|ps| - 1], critical); }
  }

  lemma {:induction false} NothingFalse(fates: seq<bool>)
    requires forall f :: f in fates ==> f
    ensures Count(fates, false) == 0
  {
    if fates != [] {
      var n := |fates| - 1;
      assert fates[n] in fates;
      assert forall f :: f in fates[..n] ==> f in fates;
      NothingFalse(fates[..n]);
    }
  }

  /** At quiescence the general lane has drained, dropped or kept every non-critical emit, and the
      critical lane has drained, kept or refused every critical one: it never drops. */
  lemma QuiescentConservation(producers: nat, generalSlots: nat, criticalSlots: nat, actions: seq<Action>)
    requires 0 < generalSlots && 0 < criticalSlots
    requires Quiescent(Run(producers, generalSlots, criticalSlots, actions))
    ensures var s := Run(producers, generalSlots, criticalSlots, actions);
            && |OfLane(s.issued, false)| ==
               |OfLane(s.handed, false)| + Count(s.general.fates, false) + |Queued(s.general)|
            && |OfLane(s.issued, true)| ==
               |OfLane(s.handed, true)| + |Queued(s.critical)| + |s.critical.overflowed|
  {
    var s := Run(producers, generalSlots, criticalSlots, actions);
    Conservation(producers, generalSlots, criticalSlots, actions, false);
    Conservation(producers, generalSlots, criticalSlots, actions, true);
    IdleInFlight(s.producers, false);
    IdleInFlight(s.producers, true);
    RunKeepsInv(producers, generalSlots, criticalSlots, actions);
    NothingFalse(s.critical.fates);
  }

  // ----- order, and each record once -----

  lemma {:induction false} DrainedFrom(accepted: seq<Ticket>, fates: seq<bool>, t: Ticket) returns (i: nat)
    requires |fates| <= |accepted| && t in Drained(accepted, fates)
    ensures i < |fates| && fates[i] && accepted[i] == t
  {
    var n := |fates| - 1;
    if fates[n] && accepted[n] == t {
      i := n;
    } else {
      i := DrainedFrom(accepted, fates[..n], t);
    }
  }

  lemma {:induction false} DrainedHas(accepted: seq<Ticket>, fates: seq<bool>, i: nat)
    requires |fates| <= |accepted| && i < |fates| && fates[i]
    ensures accepted[i] in Drained(accepted, fates)
    decreases |fates|
  {
    if i < |fates| - 1 { DrainedHas(accepted, fates[..|fates| - 1], i); }
  }

  lemma {:induction false} DrainedIsOrdered(accepted: seq<Ticket>, fates: seq<bool>)
    requires |fates| <= |accepted| && Ordered(accepted)
    ensures Ordered(Drained(accepted, fates))
  {
    if fates != [] {
      var n := |fates| - 1;
      var before := Drained(accepted, fates[..n]);
      DrainedIsOrdered(accepted, fates[..n]);
      forall i | 0 <= i < |before| && before[i].producer == accepted[n].producer
        ensures before[i].number < accepted[n].number
      {
        assert before[i] in before;
        var k := DrainedFrom(accepted, fates[..n], before[i]);
      }
    }
  }

  /** The lane lost `t`: it was dropped to make room, or refused when the wait ran out. */
  ghost predicate Lost(l: Lane<Ticket>, t: Ticket) {
    || t in l.overflowed
    || exists i :: 0 <= i < |l.fates| <= |l.accepted| && l.accepted[i] == t && !l.fates[i]
  }

  /** Each producer's records reach the sink in strictly increasing order on each lane, so none twice;
      and each of them was issued. */
  lemma HandedInOrder(producers: nat, generalSlots: nat, criticalSlots: nat, actions: seq<Action>, critical: bool)
    requires 0 < generalSlots && 0 < criticalSlots
    ensures var s := Run(producers, generalSlots, criticalSlots, actions);
            && Ordered(OfLane(s.handed, critical))
            && forall t :: t in OfLane(s.handed, critical) ==> Issued(s.issued, t, critical)
  {
    var s := Run(producers, generalSlots, criticalSlots, actions);
    RunKeepsInv(producers, generalSlots, criticalSlots, actions);
    var l := LaneOf(s, critical);
    DrainedIsOrdered(l.accepted, l.fates);
    OfLaneJoin(s.handed, InHand(s.writer), critical);
    assert HandedInv(s, critical);
    var handed, drained := OfLane(s.handed, critical), Drained(l.accepted, l.fates);
    assert forall i :: 0 <= i < |handed| ==> handed[i] == drained[i];
    forall t | t in handed ensures Issued(s.issued, t, critical) {
      var k := DrainedFrom(l.accepted, l.fates, t);
    }
  }

  lemma EarlierAccepted(l: Lane<Ticket>, t: Ticket, u: Ticket)
    requires |l.fates| <= |l.accepted| && Ordered(l.accepted) && t in Drained(l.accepted, l.fates)
    requires u in l.accepted && u.producer == t.producer && u.number < t.number
    ensures u in Drained(l.accepted, l.fates) || Lost(l, u)
  {
    var j := DrainedFrom(l.accepted, l.fates, t);
    var i :| 0 <= i < |l.accepted| && l.accepted[i] == u;
    assert i < j;
    if l.fates[i] { DrainedHas(l.accepted, l.fates, i); }
  }

  lemma EarlierNotFlying(s: Engine, t: Ticket, u: Ticket)
    requires ProducersInv(s) && t in s.issued && u.producer == t.producer && u.number < t.number
    ensures !(u.producer < |s.producers| && u in Flying(s.producers[u.producer]))
  {
    if u.producer < |s.producers| && !s.producers[u.producer].Idle? {
      assert FlyingInv(s, u.producer, s.producers[u.producer].ticket);
    }
  }

  /** What has been handed over was drained, and so was what the writer holds. */
  lemma HandedWasDrained(s: Engine, critical: bool, t: Ticket)
    requires |LaneOf(s, critical).fates| <= |LaneOf(s, critical).accepted| && HandedInv(s, critical)
    ensures t in OfLane(s.handed, critical) ==> t in Drained(LaneOf(s, critical).accepted, LaneOf(s, critical).fates)
    ensures OfLane(s.handed, critical) <= Drained(LaneOf(s, critical).accepted, LaneOf(s, critical).fates)
  {
    OfLaneJoin(s.handed, InHand(s.writer), critical);
  }

  lemma EarlierLeft(s: Engine, critical: bool, t: Ticket, u: Ticket)
    requires Inv(s) && Issued(s.issued, u, critical) && u.producer == t.producer && u.number < t.number
    requires t in Drained(LaneOf(s, critical).accepted, LaneOf(s, critical).fates)
    ensures u in Drained(LaneOf(s, critical).accepted, LaneOf(s, critical).fates) || Lost(LaneOf(s, critical), u)
  {
    var l := LaneOf(s, critical);
    var j := DrainedFrom(l.accepted, l.fates, t);
    assert t in l.accepted && t in s.issued;
    assert Placed(s, s.issued[u.number]);
    EarlierNotFlying(s, t, u);
    if u in l.accepted { EarlierAccepted(l, t, u); }
  }

  /** What the writer holds is newer than anything it has handed over from the same producer. */
  lemma HandedBeforeLast(all: seq<Ticket>, handed: seq<Ticket>, t: Ticket, u: Ticket)
    requires Ordered(all) && handed <= all && t in handed && u in all
    requires u.producer == t.producer && u.number < t.number
    ensures u in handed
  {
    var i :| 0 <= i < |handed| && handed[i] == t;
    var k :| 0 <= k < |all| && all[k] == u;
    assert all[i] == t && handed == all[..|handed|];
    assert k < i;
    assert handed[k] == u;
  }

  lemma DrainedIsNotLost(l: Lane<Ticket>, issued: seq<Ticket>, critical: bool, u: Ticket)
    requires LaneInv(l, issued, critical) && u in Drained(l.accepted, l.fates)
    ensures !Lost(l, u)
  {
    var i := DrainedFrom(l.accepted, l.fates, u);
    assert u in l.accepted;
    forall k | 0 <= k < |l.fates| && l.accepted[k] == u ensures k == i {
    }
  }

  lemma GapInState(s: Engine, critical: bool, t: Ticket, u: Ticket)
    requires Inv(s) && t in OfLane(s.handed, critical) && Issued(s.issued, u, critical)
    requires u.producer == t.producer && u.number < t.number
    ensures u in OfLane(s.handed, critical) <==> !Lost(LaneOf(s, critical), u)
  {
    var l := LaneOf(s, critical);
    HandedWasDrained(s, critical, t);
    HandedWasDrained(s, critical, u);
    EarlierLeft(s, critical, t, u);
    DrainedIsOrdered(l.accepted, l.fates);
    if u in Drained(l.accepted, l.fates) {
      HandedBeforeLast(Drained(l.accepted, l.fates), OfLane(s.handed, critical), t, u);
      DrainedIsNotLost(l, s.issued, critical, u);
    }
  }

  /** A gap in what the sink received from one producer on one lane is a record that lane lost: once a
      later record has been handed over, every earlier one has been handed over or is counted lost. */
  lemma GapsAreLosses(producers: nat, generalSlots: nat, criticalSlots: nat, actions: seq<Action>,
                      critical: bool, t: Ticket, u: Ticket)
    requires 0 < generalSlots && 0 < criticalSlots
    requires var s := Run(producers, generalSlots, criticalSlots, actions);
             && t in OfLane(s.handed, critical) && Issued(s.issued, u, critical)
             && u.producer == t.producer && u.number < t.number
    ensures var s := Run(producers, generalSlots, criticalSlots, actions);
            u in OfLane(s.handed, critical) <==> !Lost(LaneOf(s, critical), u)
  {
    RunKeepsInv(producers, generalSlots, criticalSlots, actions);
    GapInState(Run(producers, generalSlots, criticalSlots, actions), critical, t, u);
  }

  // ----- the critical wait -----

  /** A waiting producer that is woken before its deadline, and finds room, has its record accepted last
      and loses nothing. */
  lemma WokenToRoomAccepted(s: Engine, p: nat)
    requires p < |s.producers| && s.producers[p].Waiting? && !Full(s.critical)
    ensures var t, s' := s.producers[p].ticket, Apply(s, Action.Wake(p, false));
            && s'.critical.accepted == s.critical.accepted + [t] && s'.critical.overflowed == s.critical.overflowed
            && s'.critical.fates == s.critical.fates && s'.producers[p] == Idle
  {
  }

  function CountTimeouts(actions: seq<Action>): nat {
    if actions == [] then 0
    else (if actions[0].Wake? && actions[0].timeout then 1 else 0) + CountTimeouts(actions[1..])
  }

  lemma OneTimeoutOneLoss(s: Engine, a: Action)
    ensures s.critical.overflowed <= Apply(s, a).critical.overflowed
    ensures |Apply(s, a).critical.overflowed| <= |s.critical.overflowed| + CountTimeouts([a])
  {
    assert [a][1..] == [];
  }

  lemma {:induction false} LossesInRun(s: Engine, actions: seq<Action>)
    ensures |Exec(s, actions).critical.overflowed| <= |s.critical.overflowed| + CountTimeouts(actions)
    decreases |actions|
  {
    if actions != [] {
      OneTimeoutOneLoss(s, actions[0]);
      assert [actions[0]][1..] == [];
      LossesInRun(Apply(s, actions[0]), actions[1..]);
    }
  }

  /** A critical record is lost only to a deadline: in every run at most one for each wait that timed out,
      and none at all when no wait did. */
  lemma LossesAreTimeouts(producers: nat, generalSlots: nat, criticalSlots: nat, actions: seq<Action>)
    requires 0 < generalSlots && 0 < criticalSlots
    ensures var s := Run(producers, generalSlots, criticalSlots, actions);
            |s.critical.overflowed| <= CountTimeouts(actions)
  {
    LossesInRun(Init(producers, generalSlots, criticalSlots), actions);
  }

  // ----- the shutdown -----

  predicate OnlyWrites(actions: seq<Action>) {
    forall i :: 0 <= i < |actions| ==> actions[i].Write?
  }

  function Backlog(s: Engine): nat {
    |Queued(s.general)| + |Queued(s.critical)|
  }

  function Rank(w: Writer): nat {
    match w
    case Done => 0
    case DrainGeneral => 1
    case DrainCritical => 2
    case DrainTop => 3
    case DrainWriting(_) => 4
    case CheckStop => 4
    case LookGeneral => 5
    case Top => 6
    case Writing(_) => 7
    case Parked => 7
  }

  /** How many steps the writer can still take once the stop flag is set and no producer runs. */
  function Work(s: Engine): nat {
    4 * Backlog(s) + Rank(s.writer)
  }

  lemma WriteWorks(s: Engine, timeUp: bool)
    requires s.stop && !s.writer.Done?
    ensures Work(WriteStep(s, timeUp)) < Work(s) && WriteStep(s, timeUp).stop
  {
  }

  /** Once stop is set and the producers are quiet the writer ends, within `Work` steps of its own,
      whatever the clock says. */
  lemma {:induction false} WriterEnds(s: Engine, actions: seq<Action>)
    requires s.stop && OnlyWrites(actions) && |actions| >= Work(s)
    ensures Exec(s, actions).writer.Done?
    decreases |actions|
  {
    if actions != [] {
      if s.writer.Done? {
        DoneStays(s, actions);
      } else {
        WriteWorks(s, actions[0].timeUp);
        WriterEnds(Apply(s, actions[0]), actions[1..]);
      }
    }
  }

  lemma {:induction false} DoneStays(s: Engine, actions: seq<Action>)
    requires s.writer.Done? && OnlyWrites(actions)
    ensures Exec(s, actions) == s
    decreases |actions|
  {
    if actions != [] { DoneStays(s, actions[1..]); }
  }

  predicate InMainLoop(w: Writer) {
    w.Top? || w.LookGeneral? || w.Writing? || w.CheckStop? || w.Parked?
  }

  /** Whether the writer will still look at every queued record before it reads the stop flag. */
  predicate WillSweep(s: Engine) {
    match s.writer
    case LookGeneral => Queued(s.critical) == [] || Queued(s.general) != []
    case CheckStop => Backlog(s) == 0
    case Top => true
    case Writing(_) => true
    case Parked => true
    case _ => Backlog(s) == 0
  }

  lemma WriteSweeps(s: Engine, timeUp: bool)
    requires s.stop && WillSweep(s)
    ensures WillSweep(WriteStep(s, timeUp))
  {
  }

  lemma {:induction false} SweptRun(s: Engine, actions: seq<Action>)
    requires s.stop && WillSweep(s) && OnlyWrites(actions)
    ensures WillSweep(Exec(s, actions))
    decreases |actions|
  {
    if actions != [] {
      WriteSweeps(s, actions[0].timeUp);
      SweptRun(Apply(s, actions[0]), actions[1..]);
    }
  }

  /** Shutdown leaves nothing behind, whatever the flush budget. */
  ghost predicate AlwaysFlushes(s: Engine) {
    forall actions :: OnlyWrites(actions) && Exec(s, actions).writer.Done? ==> Backlog(Exec(s, actions)) == 0
  }

  /** With stop set while the writer is in its main loop and no emit after it, shutdown leaves nothing
      behind for every flush budget, zero included, exactly when the writer was not caught between its
      look at a lane and its reading of the stop flag with a record in that lane. */
  lemma FlushedExactlyWhenSwept(s: Engine)
    requires s.stop && InMainLoop(s.writer)
    ensures AlwaysFlushes(s) <==> WillSweep(s)
  {
    if WillSweep(s) {
      forall actions | OnlyWrites(actions) && Exec(s, actions).writer.Done?
        ensures Backlog(Exec(s, actions)) == 0
      {
        SweptRun(s, actions);
      }
    } else {
      HurriedRun(s, Hurry(s.writer));
    }
  }

  /** With nothing queued when stop is set, shutdown leaves nothing behind, wherever the writer stands. */
  lemma EmptyBacklogFlushes(s: Engine)
    requires s.stop && InMainLoop(s.writer) && Backlog(s) == 0
    ensures AlwaysFlushes(s)
  {
    FlushedExactlyWhenSwept(s);
  }

  /** The writer's steps from its last look to its end when the flush has no time at all. */
  function Hurry(w: Writer): seq<Action> {
    if w.LookGeneral? then [Write(true), Write(true), Write(true)] else [Write(true), Write(true)]
  }

  lemma HurriedRun(s: Engine, hurry: seq<Action>)
    requires s.stop && InMainLoop(s.writer) && !WillSweep(s)
    requires hurry == Hurry(s.writer)
    ensures Exec(s, hurry).writer.Done? && Backlog(Exec(s, hurry)) > 0
  {
    var s1 := Apply(s, hurry[0]);
    var s2 := Apply(s1, hurry[1]);
    assert Exec(s, hurry) == Exec(s1, hurry[1..]) == Exec(s2, hurry[1..][1..]);
    if s.writer.LookGeneral? {
      assert Exec(s2, hurry[1..][1..]) == Exec(Apply(s2, Write(true)), []);
    }
  }

  /** A flush budget that is not used up leaves nothing behind. */
  lemma {:induction false} UnhurriedFlush(s: Engine, actions: seq<Action>)
    requires s.stop && OnlyWrites(actions) && (forall i :: 0 <= i < |actions| ==> !actions[i].timeUp)
    requires s.writer.Done? ==> Backlog(s) == 0
    requires s.writer.DrainGeneral? ==> Queued(s.critical) == []
    ensures Exec(s, actions).writer.Done? ==> Backlog(Exec(s, actions)) == 0
    decreases |actions|
  {
    if actions != [] { UnhurriedFlush(Apply(s, actions[0]), actions[1..]); }
  }

  /** The unlucky run exists: a critical record accepted just after the writer looked at its lane, stop
      set before the writer reads it, and a budget of zero: the emit has returned, the record stays. */
  lemma ZeroBudgetCanLeaveARecord()
    ensures var s := Run(1, 1, 1, [Write(true), Begin(0, true), Push(0), SetStop,
                                   Write(true), Write(true), Write(true)]);
            s.writer.Done? && Quiescent(s) && Queued(s.critical) == [Ticket(0, 0, true)] && s.handed == []
  {
    var s0 := Init(1, 1, 1);
    var acts := [Begin(0, true), Push(0), SetStop, Write(true), Write(true), Write(true)];
    var all := [Write(true)] + acts;
    assert all[1..] == acts;
    assert acts[1..] == [Push(0), SetStop, Write(true), Write(true), Write(true)];
    assert acts[1..][1..] == [SetStop, Write(true), Write(true), Write(true)];
    var s1 := Apply(s0, Write(true));
    var s2 := Apply(s1, Begin(0, true));
    var s3 := Apply(s2, Push(0));
    var s4 := Apply(s3, SetStop);
    assert s3.producers == [Idle];
    assert Exec(s0, all) == Exec(s3, acts[1..][1..]);
    assert Exec(s3, acts[1..][1..]) == Exec(s4, [Write(true), Write(true), Write(true)]);
    HurriedRun(s4, [Write(true), Write(true), Write(true)]);
  }

  // ----- why the producers have to be quiet -----

  function CountWrites(actions: seq<Action>): nat {
    if actions == [] then 0 else (if actions[0].Write? then 1 else 0) + CountWrites(actions[1..])
  }

  /** Rounds in which the producer emits a record just ahead of each look at its lane. */
  function BusyRounds(n: nat): seq<Action> {
    if n == 0 then []
    else [Begin(0, false)] + ([Push(0)] + ([Write(false)] + ([Write(false)] + ([Write(false)] + BusyRounds(n - 1)))))
  }

  /** The stop flag is set, the writer is at the top of its loop and nothing is queued. */
  predicate Overtaken(s: Engine) {
    && s.stop && s.writer.Top? && 0 < |s.producers| && s.producers[0].Idle? && 0 < s.general.capacity
    && |s.general.fates| == |s.general.accepted| && Queued(s.critical) == []
  }

  lemma ExecFirst(s: Engine, a: Action, rest: seq<Action>)
    ensures Exec(s, [a] + rest) == Exec(Apply(s, a), rest)
    ensures CountWrites([a] + rest) == (if a.Write? then 1 else 0) + CountWrites(rest)
  {
    assert ([a] + rest)[1..] == rest;
  }

  lemma {:induction false} BusyRun(s: Engine, n: nat)
    requires Overtaken(s)
    ensures Overtaken(Exec(s, BusyRounds(n))) && CountWrites(BusyRounds(n)) == 3 * n
    decreases n
  {
    if n > 0 {
      var r4 := BusyRounds(n - 1);
      var r3 := [Write(false)] + r4;
      var r2 := [Write(false)] + r3;
      var r1 := [Write(false)] + r2;
      var r0 := [Push(0)] + r1;
      var s1 := Apply(s, Begin(0, false));
      var s2 := Apply(s1, Push(0));
      var s3 := Apply(s2, Write(false));
      var s4 := Apply(s3, Write(false));
      ExecFirst(s, Begin(0, false), r0);
      ExecFirst(s1, Push(0), r1);
      ExecFirst(s2, Write(false), r2);
      ExecFirst(s3, Write(false), r3);
      ExecFirst(s4, Write(false), r4);
      BusyRun(Apply(s4, Write(false)), n - 1);
    }
  }

  /** The main loop reads the stop flag only after it saw both lanes empty: with a producer that keeps
      emitting there is, for every n, a run in which stop is set first, the writer then takes n steps
      and more, and is still in its main loop. So the writer's end needs quiet producers. */
  lemma StopCanBeOvertaken(n: nat, generalSlots: nat, criticalSlots: nat) returns (actions: seq<Action>)
    requires 0 < generalSlots && 0 < criticalSlots
    ensures actions != [] && actions[0] == SetStop && CountWrites(actions) >= n
    ensures var s := Run(1, generalSlots, criticalSlots, actions); s.stop && InMainLoop(s.writer)
  {
    actions := [SetStop] + BusyRounds(n);
    var s := Init(1, generalSlots, criticalSlots);
    ExecFirst(s, SetStop, BusyRounds(n));
    BusyRun(Apply(s, SetStop), n);
  }
}
