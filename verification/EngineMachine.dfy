/** The diagnostics engine as a transition system: any number of producers, the two lanes, the writer
    thread and the stop flag. Every step is one lock-protected lane operation or one atomic access. */
module EngineMachine {
  import opened LaneLaw

  /** What identifies one emitted record: who emitted it, its sequence number and its lane. */
  datatype Ticket = Ticket(producer: nat, number: nat, critical: bool)

  /** A producer between two emits, with its sequence number taken, or blocked on the full critical lane. */
  datatype Producer = Idle | Holding(ticket: Ticket) | Waiting(ticket: Ticket)

  /** Where the writer thread is; `Parked` is its timed wait, the drain is what follows the stop flag. */
  datatype Writer =
    | Top | LookGeneral | Writing(ticket: Ticket) | CheckStop | Parked
    | DrainTop | DrainCritical | DrainGeneral | DrainWriting(ticket: Ticket) | Done

  datatype Engine = Engine(
    general: Lane<Ticket>, critical: Lane<Ticket>, producers: seq<Producer>, issued: seq<Ticket>,
    writer: Writer, handed: seq<Ticket>, stop: bool)

  /** `timeout` and `timeUp` are what the clock says: either answer is possible at any time. */
  datatype Action =
    | Begin(p: nat, critical: bool) | Push(p: nat) | Wake(p: nat, timeout: bool)
    | Write(timeUp: bool) | SetStop

  function Init(producers: nat, generalSlots: nat, criticalSlots: nat): Engine {
    Engine(Lane(generalSlots, [], [], []), Lane(criticalSlots, [], [], []), seq(producers, _ => Idle), [],
           Top, [], false)
  }

  /** The sequence number is taken by one fetch-and-add. */
  function BeginStep(s: Engine, p: nat, critical: bool): Engine
    requires p < |s.producers|
  {
    if !s.producers[p].Idle? then s
    else
      var t := Ticket(p, |s.issued|, critical);
      s.(issued := s.issued + [t], producers := s.producers[p := Holding(t)])
  }

  function AcceptCritical(s: Engine, p: nat, t: Ticket): Engine
    requires p < |s.producers|
  {
    s.(critical := Accept(s.critical, t), producers := s.producers[p := Idle])
  }

  function PushStep(s: Engine, p: nat): Engine
    requires p < |s.producers|
  {
    if !s.producers[p].Holding? then s
    else
      var t := s.producers[p].ticket;
      if !t.critical then s.(general := PushDropOldest(s.general, t), producers := s.producers[p := Idle])
      else if Full(s.critical) then s.(producers := s.producers[p := Waiting(t)])
      else AcceptCritical(s, p, t)
  }

  /** A wait that ends by its deadline counts an overflow even if there is room by now. */
  function WakeStep(s: Engine, p: nat, timeout: bool): Engine
    requires p < |s.producers|
  {
    if !s.producers[p].Waiting? then s
    else
      var t := s.producers[p].ticket;
      if timeout then
        s.(critical := Refuse(s.critical, t), producers := s.producers[p := Idle])
      else if Full(s.critical) then s
      else AcceptCritical(s, p, t)
  }

  /** Tries the critical lane: on success the writer goes on with the record, else to `otherwise`. */
  function TakeCritical(s: Engine, drain: bool, otherwise: Writer): Engine {
    if Queued(s.critical) == [] then s.(writer := otherwise)
    else
      var t := Queued(s.critical)[0];
      s.(critical := Popped(s.critical), writer := if drain then DrainWriting(t) else Writing(t))
  }

  function TakeGeneral(s: Engine, drain: bool, otherwise: Writer): Engine {
    if Queued(s.general) == [] then s.(writer := otherwise)
    else
      var t := Queued(s.general)[0];
      s.(general := Popped(s.general), writer := if drain then DrainWriting(t) else Writing(t))
  }

  /** The writer thread: the main loop reads the stop flag only after it found both lanes empty. */
  function WriteStep(s: Engine, timeUp: bool): Engine {
    match s.writer
    case Top => TakeCritical(s, false, LookGeneral)
    case LookGeneral => TakeGeneral(s, false, CheckStop)
    case Writing(t) => s.(handed := s.handed + [t], writer := Top)
    case CheckStop => s.(writer := if s.stop then DrainTop else Parked)
    case Parked => s.(writer := Top)
    case DrainTop => s.(writer := if timeUp then Done else DrainCritical)
    case DrainCritical => TakeCritical(s, true, DrainGeneral)
    case DrainGeneral => TakeGeneral(s, true, Done)
    case DrainWriting(t) => s.(handed := s.handed + [t], writer := DrainTop)
    case Done => s
  }

  function Apply(s: Engine, a: Action): Engine {
    match a
    case Begin(p, critical) => if p < |s.producers| then BeginStep(s, p, critical) else s
    case Push(p) => if p < |s.producers| then PushStep(s, p) else s
    case Wake(p, timeout) => if p < |s.producers| then WakeStep(s, p, timeout) else s
    case Write(timeUp) => WriteStep(s, timeUp)
    case SetStop => s.(stop := true)
  }

  function Exec(s: Engine, actions: seq<Action>): Engine
    decreases |actions|
  {
    if actions == [] then s else Exec(Apply(s, actions[0]), actions[1..])
  }

  // ----- what the producers and the writer hold -----

  function Flying(p: Producer): seq<Ticket> {
    if p.Idle? then [] else [p.ticket]
  }

  function InHand(w: Writer): seq<Ticket> {
    if w.Writing? || w.DrainWriting? then [w.ticket] else []
  }

  function LaneOf(s: Engine, critical: bool): Lane<Ticket> {
    if critical then s.critical else s.general
  }

  function OfLane(ts: seq<Ticket>, critical: bool): seq<Ticket> {
    if ts == [] then []
    else
      var n := |ts| - 1;
      OfLane(ts[..n], critical) + if ts[n].critical == critical then [ts[n]] else []
  }

  /** The records of one lane that producers have numbered but not yet handed over. */
  function InFlight(ps: seq<Producer>, critical: bool): nat {
    if ps == [] then 0
    else
      var n := |ps| - 1;
      InFlight(ps[..n], critical) + |OfLane(Flying(ps[n]), critical)|
  }
}
