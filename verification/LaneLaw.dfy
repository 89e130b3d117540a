/** What each lock-protected operation does to a lane, whatever its records are: the law that the lanes
    of slots obey and that the threads of the engine are interleaved over. */
module LaneLaw {
  /** Every record accepted so far, whether each that has left was drained (or dropped), and every
      record refused because its wait ran out. */
  datatype Lane<T> = Lane(capacity: nat, accepted: seq<T>, fates: seq<bool>, overflowed: seq<T>)

  function Queued<T>(l: Lane<T>): seq<T> {
    if |l.fates| <= |l.accepted| then l.accepted[|l.fates|..] else []
  }

  predicate Full<T>(l: Lane<T>) {
    |Queued(l)| >= l.capacity
  }

  function Accept<T>(l: Lane<T>, t: T): Lane<T> {
    l.(accepted := l.accepted + [t])
  }

  function PushDropOldest<T>(l: Lane<T>, t: T): Lane<T> {
    if Full(l) then Accept(l.(fates := l.fates + [false]), t) else Accept(l, t)
  }

  function Popped<T>(l: Lane<T>): Lane<T> {
    l.(fates := l.fates + [true])
  }

  function Refuse<T>(l: Lane<T>, t: T): Lane<T> {
    l.(overflowed := l.overflowed + [t])
  }

  /** How one wait for room ended: by its deadline or not, and the lane as the waiter then found it. */
  datatype Wake<T> = Wake(timedOut: bool, found: Lane<T>)

  /** Every one of these waits was woken before its deadline, to a full lane. */
  predicate AllFull<T>(wakes: seq<Wake<T>>) {
    forall i :: 0 <= i < |wakes| ==> !wakes[i].timedOut && Full(wakes[i].found)
  }

  /** What a bounded push may make of its waits: with room at once it makes none; woken to a full lane it
      waits again; woken to room it is accepted, and only a deadline has it refused. */
  ghost predicate WaitedOut<T>(start: Lane<T>, wakes: seq<Wake<T>>, before: Lane<T>, ok: bool) {
    if wakes == [] then ok && !Full(start) && before == start
    else
      var last := wakes[|wakes| - 1];
      && Full(start) && before == last.found && ok == !last.timedOut && (ok ==> !Full(before))
      && AllFull(wakes[..|wakes| - 1])
  }
}
