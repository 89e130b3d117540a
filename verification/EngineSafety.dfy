/** The invariant of the diagnostics engine, kept by every step. */
module EngineSafety {
  import opened LaneLaw
  import opened Lanes
  import opened EngineMachine

  /** `t` is the record issued under its number, on the given lane. */
  predicate Issued(issued: seq<Ticket>, t: Ticket, critical: bool) {
    t.number < |issued| && issued[t.number] == t && t.critical == critical
  }

  /** Records of one producer stand in the order they were issued. */
  ghost predicate Ordered(ts: seq<Ticket>) {
    forall i, j :: 0 <= i < j < |ts| && ts[i].producer == ts[j].producer ==> ts[i].number < ts[j].number
  }

  ghost predicate LaneInv(l: Lane<Ticket>, issued: seq<Ticket>, critical: bool) {
    && 0 < l.capacity && |l.fates| <= |l.accepted| <= |l.fates| + l.capacity
    && (forall t :: t in l.accepted ==> Issued(issued, t, critical))
    && (forall t :: t in l.overflowed ==> Issued(issued, t, critical) && t !in l.accepted)
    && Ordered(l.accepted)
    && (if critical then forall f :: f in l.fates ==> f else l.overflowed == [])
  }

  /** A record in flight is its producer's newest and in no lane yet. */
  ghost predicate FlyingInv(s: Engine, p: nat, t: Ticket) {
    && Issued(s.issued, t, t.critical) && t.producer == p
    && (forall u :: u in s.issued && u.producer == p ==> u.number <= t.number)
    && t !in LaneOf(s, t.critical).accepted && t !in LaneOf(s, t.critical).overflowed
  }

  ghost predicate ProducersInv(s: Engine) {
    forall p :: 0 <= p < |s.producers| && !s.producers[p].Idle? ==>
      FlyingInv(s, p, s.producers[p].ticket) && (s.producers[p].Waiting? ==> s.producers[p].ticket.critical)
  }

  /** Where an issued record is: accepted by its lane, lost to an overflow, or with its producer. */
  predicate Placed(s: Engine, t: Ticket) {
    || t in LaneOf(s, t.critical).accepted
    || t in LaneOf(s, t.critical).overflowed
    || (t.producer < |s.producers| && t in Flying(s.producers[t.producer]))
  }

  ghost predicate IssuedInv(s: Engine) {
    forall k :: 0 <= k < |s.issued| ==> s.issued[k].number == k && Placed(s, s.issued[k])
  }

  /** What was drained from a lane is what the writer has handed over from it, and the one it holds. */
  ghost predicate HandedInv(s: Engine, critical: bool)
    requires |LaneOf(s, critical).fates| <= |LaneOf(s, critical).accepted|
  {
    OfLane(s.handed + InHand(s.writer), critical) ==
    Drained(LaneOf(s, critical).accepted, LaneOf(s, critical).fates)
  }

  ghost predicate Counted(s: Engine, critical: bool) {
    |OfLane(s.issued, critical)| ==
    |LaneOf(s, critical).accepted| + |LaneOf(s, critical).overflowed| + InFlight(s.producers, critical)
  }

  ghost predicate Inv(s: Engine) {
    && LaneInv(s.general, s.issued, false) && LaneInv(s.critical, s.issued, true)
    && ProducersInv(s) && IssuedInv(s)
    && HandedInv(s, false) && HandedInv(s, true)
    && Counted(s, false) && Counted(s, true)
  }

  lemma {:induction false} InitInFlight(n: nat, critical: bool)
    ensures InFlight(seq(n, _ => Idle), critical) == 0
  {
    if n > 0 {
      InitInFlight(n - 1, critical);
      assert seq(n, _ => Idle)[..n - 1] == seq(n - 1, _ => Idle);
    }
  }

  lemma InitInv(producers: nat, generalSlots: nat, criticalSlots: nat)
    requires 0 < generalSlots && 0 < criticalSlots
    ensures Inv(Init(producers, generalSlots, criticalSlots))
  {
    InitInFlight(producers, false);
    InitInFlight(producers, true);
  }

  lemma {:induction false} InFlightUpdate(ps: seq<Producer>, p: nat, x: Producer, critical: bool)
    requires p < |ps|
    ensures InFlight(ps[p := x], critical) + |OfLane(Flying(ps[p]), critical)| ==
            InFlight(ps, critical) + |OfLane(Flying(x), critical)|
  {
    var n := |ps| - 1;
    if p == n {
      assert ps[p := x][..n] == ps[..n];
    } else {
      InFlightUpdate(ps[..n], p, x, critical);
      assert ps[p := x][..n] == ps[..n][p := x];
    }
  }

  lemma OfLaneAppend(ts: seq<Ticket>, t: Ticket, critical: bool)
    ensures OfLane(ts + [t], critical) == OfLane(ts, critical) + if t.critical == critical then [t] else []
  {
    assert (ts + [t])[..|ts|] == ts;
  }

  lemma OfLaneOne(t: Ticket, critical: bool)
    ensures OfLane([t], critical) == if t.critical == critical then [t] else []
  {
    assert [t][..0] == [];
  }

  // ----- the producers -----

  lemma LaneInvGrows(l: Lane<Ticket>, issued: seq<Ticket>, t: Ticket, critical: bool)
    requires LaneInv(l, issued, critical)
    ensures LaneInv(l, issued + [t], critical)
  {
  }

  lemma IssuedBelow(s: Engine, u: Ticket)
    requires IssuedInv(s) && u in s.issued
    ensures u.number < |s.issued| && s.issued[u.number] == u
  {
    var k :| 0 <= k < |s.issued| && s.issued[k] == u;
  }

  lemma BeginProducers(s: Engine, p: nat, critical: bool)
    requires Inv(s) && p < |s.producers| && s.producers[p].Idle?
    ensures ProducersInv(BeginStep(s, p, critical))
  {
    var s', t := BeginStep(s, p, critical), Ticket(p, |s.issued|, critical);
    forall q | 0 <= q < |s'.producers| && !s'.producers[q].Idle?
      ensures FlyingInv(s', q, s'.producers[q].ticket)
    {
      if q == p {
        forall u | u in s'.issued ensures u.number <= t.number {
          if u in s.issued { IssuedBelow(s, u); }
        }
      } else {
        assert FlyingInv(s, q, s.producers[q].ticket);
      }
    }
  }

  lemma BeginIssued(s: Engine, p: nat, critical: bool)
    requires Inv(s) && p < |s.producers| && s.producers[p].Idle?
    ensures IssuedInv(BeginStep(s, p, critical))
  {
    var s' := BeginStep(s, p, critical);
    forall k | 0 <= k < |s.issued| ensures s'.issued[k].number == k && Placed(s', s'.issued[k]) {
      assert Placed(s, s.issued[k]);
    }
  }

  lemma BeginCounted(s: Engine, p: nat, critical: bool, c: bool)
    requires Counted(s, c) && p < |s.producers| && s.producers[p].Idle?
    ensures Counted(BeginStep(s, p, critical), c)
  {
    var t := Ticket(p, |s.issued|, critical);
    OfLaneAppend(s.issued, t, c);
    OfLaneOne(t, c);
    InFlightUpdate(s.producers, p, Holding(t), c);
  }

  lemma BeginKeepsInv(s: Engine, p: nat, critical: bool)
    requires Inv(s) && p < |s.producers|
    ensures Inv(BeginStep(s, p, critical))
  {
    if s.producers[p].Idle? {
      var t := Ticket(p, |s.issued|, critical);
      LaneInvGrows(s.general, s.issued, t, false);
      LaneInvGrows(s.critical, s.issued, t, true);
      BeginProducers(s, p, critical);
      BeginIssued(s, p, critical);
      BeginCounted(s, p, critical, false);
      BeginCounted(s, p, critical, true);
    }
  }

  lemma AcceptLane(l: Lane<Ticket>, issued: seq<Ticket>, critical: bool, t: Ticket)
    requires LaneInv(l, issued, critical) && !Full(l) && Issued(issued, t, critical)
    requires t !in l.accepted && t !in l.overflowed
    requires forall u :: u in issued && u.producer == t.producer ==> u.number <= t.number
    ensures LaneInv(Accept(l, t), issued, critical)
  {
    var l' := Accept(l, t);
    forall i, j | 0 <= i < j < |l'.accepted| && l'.accepted[i].producer == l'.accepted[j].producer
      ensures l'.accepted[i].number < l'.accepted[j].number
    {
      assert l.accepted[i] in l.accepted;
    }
  }

  lemma DropLane(l: Lane<Ticket>, issued: seq<Ticket>)
    requires LaneInv(l, issued, false) && Full(l)
    ensures LaneInv(l.(fates := l.fates + [false]), issued, false) && !Full(l.(fates := l.fates + [false]))
  {
  }

  /** The record `t` that producer `p` held is now accepted by its lane or counted as its overflow. */
  ghost predicate Settles(s: Engine, s': Engine, p: nat, t: Ticket) {
    && p < |s.producers| && !s.producers[p].Idle? && s.producers[p].ticket == t
    && s'.issued == s.issued && s'.producers == s.producers[p := Idle]
    && LaneOf(s', !t.critical) == LaneOf(s, !t.critical)
    && var l, l' := LaneOf(s, t.critical), LaneOf(s', t.critical);
       || (l'.accepted == l.accepted + [t] && l'.overflowed == l.overflowed)
       || (l'.accepted == l.accepted && l'.overflowed == l.overflowed + [t])
  }

  lemma SettleProducers(s: Engine, s': Engine, p: nat, t: Ticket)
    requires ProducersInv(s) && Settles(s, s', p, t)
    ensures ProducersInv(s')
  {
    forall q | 0 <= q < |s'.producers| && !s'.producers[q].Idle?
      ensures FlyingInv(s', q, s'.producers[q].ticket)
    {
      assert FlyingInv(s, q, s.producers[q].ticket) && FlyingInv(s, p, t);
    }
  }

  lemma SettleIssued(s: Engine, s': Engine, p: nat, t: Ticket)
    requires ProducersInv(s) && IssuedInv(s) && Settles(s, s', p, t)
    ensures IssuedInv(s')
  {
    assert FlyingInv(s, p, t);
    forall k | 0 <= k < |s'.issued| ensures s'.issued[k].number == k && Placed(s', s'.issued[k]) {
      assert Placed(s, s.issued[k]);
    }
  }

  lemma SettleCounted(s: Engine, s': Engine, p: nat, t: Ticket, c: bool)
    requires Counted(s, c) && Settles(s, s', p, t)
    ensures Counted(s', c)
  {
    InFlightUpdate(s.producers, p, Idle, c);
    OfLaneOne(t, c);
  }

  lemma {:induction false} DrainedPrefix(accepted: seq<Ticket>, t: Ticket, fates: seq<bool>)
    requires |fates| <= |accepted|
    ensures Drained(accepted + [t], fates) == Drained(accepted, fates)
  {
    if fates != [] {
      DrainedPrefix(accepted, t, fates[..|fates| - 1]);
    }
  }

  lemma DrainedMore(accepted: seq<Ticket>, fates: seq<bool>, f: bool)
    requires |fates| < |accepted|
    ensures Drained(accepted, fates + [f]) ==
            Drained(accepted, fates) + if f then [accepted[|fates|]] else []
  {
    assert (fates + [f])[..|fates|] == fates;
  }

  lemma SettleKeepsInv(s: Engine, s': Engine, p: nat, t: Ticket)
    requires Inv(s) && Settles(s, s', p, t)
    requires LaneInv(LaneOf(s', t.critical), s.issued, t.critical)
    requires HandedInv(s', t.critical) && s'.writer == s.writer && s'.handed == s.handed
    ensures Inv(s')
  {
    SettleProducers(s, s', p, t);
    SettleIssued(s, s', p, t);
    SettleCounted(s, s', p, t, false);
    SettleCounted(s, s', p, t, true);
    assert LaneOf(s, !t.critical) == LaneOf(s', !t.critical);
  }

  lemma PushGeneralKeepsInv(s: Engine, p: nat)
    requires Inv(s) && p < |s.producers| && s.producers[p].Holding? && !s.producers[p].ticket.critical
    ensures Inv(PushStep(s, p))
  {
    var t, s', l := s.producers[p].ticket, PushStep(s, p), s.general;
    assert FlyingInv(s, p, t);
    if Full(l) {
      DropLane(l, s.issued);
      DrainedMore(l.accepted, l.fates, false);
      l := l.(fates := l.fates + [false]);
    }
    AcceptLane(l, s.issued, false, t);
    DrainedPrefix(l.accepted, t, l.fates);
    SettleKeepsInv(s, s', p, t);
  }

  lemma AcceptCriticalKeepsInv(s: Engine, p: nat, t: Ticket)
    requires Inv(s) && p < |s.producers| && !s.producers[p].Idle? && t == s.producers[p].ticket
    requires t.critical && !Full(s.critical)
    ensures Inv(AcceptCritical(s, p, t))
  {
    assert FlyingInv(s, p, t);
    AcceptLane(s.critical, s.issued, true, t);
    DrainedPrefix(s.critical.accepted, t, s.critical.fates);
    SettleKeepsInv(s, AcceptCritical(s, p, t), p, t);
  }

  lemma OverflowKeepsInv(s: Engine, p: nat)
    requires Inv(s) && p < |s.producers| && s.producers[p].Waiting?
    ensures Inv(WakeStep(s, p, true))
  {
    var t := s.producers[p].ticket;
    assert FlyingInv(s, p, t);
    SettleKeepsInv(s, WakeStep(s, p, true), p, t);
  }

  function StartWaiting(s: Engine, p: nat): Engine
    requires p < |s.producers| && s.producers[p].Holding?
  {
    s.(producers := s.producers[p := Waiting(s.producers[p].ticket)])
  }

  lemma StartWaitingProducers(s: Engine, p: nat)
    requires ProducersInv(s) && p < |s.producers| && s.producers[p].Holding? && s.producers[p].ticket.critical
    ensures ProducersInv(StartWaiting(s, p))
  {
    var s' := StartWaiting(s, p);
    forall q | 0 <= q < |s'.producers| && !s'.producers[q].Idle?
      ensures FlyingInv(s', q, s'.producers[q].ticket)
    {
      assert FlyingInv(s, q, s.producers[q].ticket);
    }
  }

  lemma StartWaitingIssued(s: Engine, p: nat)
    requires IssuedInv(s) && p < |s.producers| && s.producers[p].Holding?
    ensures IssuedInv(StartWaiting(s, p))
  {
    var s' := StartWaiting(s, p);
    forall k | 0 <= k < |s'.issued| ensures s'.issued[k].number == k && Placed(s', s'.issued[k]) {
      assert Placed(s, s.issued[k]);
    }
  }

  lemma StartWaitingCounted(s: Engine, p: nat, c: bool)
    requires Counted(s, c) && p < |s.producers| && s.producers[p].Holding?
    ensures Counted(StartWaiting(s, p), c)
  {
    InFlightUpdate(s.producers, p, Waiting(s.producers[p].ticket), c);
  }

  lemma StartWaitingKeepsInv(s: Engine, p: nat)
    requires Inv(s) && p < |s.producers| && s.producers[p].Holding? && s.producers[p].ticket.critical
    ensures Inv(StartWaiting(s, p))
  {
    StartWaitingProducers(s, p);
    StartWaitingIssued(s, p);
    StartWaitingCounted(s, p, false);
    StartWaitingCounted(s, p, true);
  }

  // ----- the writer -----

  /** A step of the writer that leaves the producers and the accepted records alone. */
  ghost predicate WriterOnly(s: Engine, s': Engine) {
    && s'.producers == s.producers && s'.issued == s.issued
    && s'.general == s.general.(fates := s'.general.fates)
    && s'.critical == s.critical.(fates := s'.critical.fates)
  }

  lemma WriterOnlyKeeps(s: Engine, s': Engine)
    requires Inv(s) && WriterOnly(s, s')
    requires |s.general.fates| <= |s'.general.fates| <= |s'.general.accepted|
    requires |s.critical.fates| <= |s'.critical.fates| <= |s'.critical.accepted|
    requires forall f :: f in s'.critical.fates ==> f
    requires HandedInv(s', false) && HandedInv(s', true)
    ensures Inv(s')
  {
    forall p | 0 <= p < |s'.producers| && !s'.producers[p].Idle?
      ensures FlyingInv(s', p, s'.producers[p].ticket)
    {
      assert FlyingInv(s, p, s.producers[p].ticket);
    }
    forall k | 0 <= k < |s'.issued| ensures s'.issued[k].number == k && Placed(s', s'.issued[k]) {
      assert Placed(s, s.issued[k]);
    }
    assert Counted(s', false) && Counted(s', true) by {
      assert Counted(s, false) && Counted(s, true);
    }
  }

  lemma TakeCriticalKeepsInv(s: Engine, drain: bool, otherwise: Writer)
    requires Inv(s) && InHand(s.writer) == InHand(otherwise) == []
    ensures Inv(TakeCritical(s, drain, otherwise))
  {
    var s' := TakeCritical(s, drain, otherwise);
    if Queued(s.critical) != [] {
      var t := Queued(s.critical)[0];
      assert t in s.critical.accepted;
      DrainedMore(s.critical.accepted, s.critical.fates, true);
      OfLaneAppend(s.handed, t, false);
      OfLaneAppend(s.handed, t, true);
      assert s.handed + [] == s.handed;
    }
    WriterOnlyKeeps(s, s');
  }

  lemma TakeGeneralKeepsInv(s: Engine, drain: bool, otherwise: Writer)
    requires Inv(s) && InHand(s.writer) == InHand(otherwise) == []
    ensures Inv(TakeGeneral(s, drain, otherwise))
  {
    var s' := TakeGeneral(s, drain, otherwise);
    if Queued(s.general) != [] {
      var t := Queued(s.general)[0];
      assert t in s.general.accepted;
      DrainedMore(s.general.accepted, s.general.fates, true);
      OfLaneAppend(s.handed, t, false);
      OfLaneAppend(s.handed, t, true);
      assert s.handed + [] == s.handed;
    }
    WriterOnlyKeeps(s, s');
  }

  lemma HandOverKeepsInv(s: Engine, next: Writer)
    requires Inv(s) && InHand(s.writer) != [] && InHand(next) == []
    ensures Inv(s.(handed := s.handed + InHand(s.writer), writer := next))
  {
    var s' := s.(handed := s.handed + InHand(s.writer), writer := next);
    assert s'.handed + InHand(next) == s'.handed;
    WriterOnlyKeeps(s, s');
  }

  lemma MoveKeepsInv(s: Engine, next: Writer)
    requires Inv(s) && InHand(s.writer) == InHand(next) == []
    ensures Inv(s.(writer := next))
  {
    WriterOnlyKeeps(s, s.(writer := next));
  }

  lemma WriteKeepsInv(s: Engine, timeUp: bool)
    requires Inv(s)
    ensures Inv(WriteStep(s, timeUp))
  {
    match s.writer
    case Top => TakeCriticalKeepsInv(s, false, LookGeneral);
    case LookGeneral => TakeGeneralKeepsInv(s, false, CheckStop);
    case Writing(t) => HandOverKeepsInv(s, Top);
    case CheckStop => MoveKeepsInv(s, if s.stop then DrainTop else Parked);
    case Parked => MoveKeepsInv(s, Top);
    case DrainTop => MoveKeepsInv(s, if timeUp then Done else DrainCritical);
    case DrainCritical => TakeCriticalKeepsInv(s, true, DrainGeneral);
    case DrainGeneral => TakeGeneralKeepsInv(s, true, Done);
    case DrainWriting(t) => HandOverKeepsInv(s, DrainTop);
    case Done =>
  }

  lemma StopKeepsInv(s: Engine)
    requires Inv(s)
    ensures Inv(s.(stop := true))
  {
    WriterOnlyKeeps(s, s.(stop := true));
  }

  lemma PushKeepsInv(s: Engine, p: nat)
    requires Inv(s) && p < |s.producers|
    ensures Inv(PushStep(s, p))
  {
    if s.producers[p].Holding? {
      if !s.producers[p].ticket.critical {
        PushGeneralKeepsInv(s, p);
      } else if Full(s.critical) {
        StartWaitingKeepsInv(s, p);
      } else {
        AcceptCriticalKeepsInv(s, p, s.producers[p].ticket);
      }
    }
  }

  lemma WakeKeepsInv(s: Engine, p: nat, timeout: bool)
    requires Inv(s) && p < |s.producers|
    ensures Inv(WakeStep(s, p, timeout))
  {
    if s.producers[p].Waiting? {
      assert s.producers[p].ticket.critical;
      if timeout {
        OverflowKeepsInv(s, p);
      } else if !Full(s.critical) {
        AcceptCriticalKeepsInv(s, p, s.producers[p].ticket);
      }
    }
  }

  lemma ApplyKeepsInv(s: Engine, a: Action)
    requires Inv(s)
    ensures Inv(Apply(s, a))
  {
    match a
    case Begin(p, critical) => if p < |s.producers| { BeginKeepsInv(s, p, critical); }
    case Push(p) => if p < |s.producers| { PushKeepsInv(s, p); }
    case Wake(p, timeout) => if p < |s.producers| { WakeKeepsInv(s, p, timeout); }
    case Write(timeUp) => WriteKeepsInv(s, timeUp);
    case SetStop => StopKeepsInv(s);
  }

  /** Every run of the engine, however the threads interleave, keeps the invariant. */
  lemma {:induction false} RunInv(s: Engine, actions: seq<Action>)
    requires Inv(s)
    ensures Inv(Exec(s, actions))
    decreases |actions|
  {
    if actions != [] {
      ApplyKeepsInv(s, actions[0]);
      RunInv(Apply(s, actions[0]), actions[1..]);
    }
  }
}
