/**
 The ring's own code, over its arrays. Every atomic operation and payload store also moves a ghost
 copy of the transition system, and `Yield` lets any other threads run between two of them.
 */
module CrashRing {
  import opened Words
  import opened Sequences
  import opened RingTypes
  import opened RingMachine
  import opened RingSafety
  import opened RingNewest
  import opened SnapshotReceipt

  /** `s'` is `s` after some run in which `t` itself took no step. */
  ghost predicate OthersRan(s: State, s': State, t: nat) {
    Shaped(s) && exists actions: seq<Action> :: (forall a :: a in actions ==> a.t != t) && s' == Exec(s, actions)
  }

  class CrashRing {
    const capacity: nat
    const records: array<Record>
    const sequences: array<nat>
    const accessStates: array<nat>
    var lastReserved: nat
    var dropped: u64
    ghost var machine: State

    ghost predicate Mirrors()
      reads this, records, sequences, accessStates
    {
      && sequences != accessStates
      && machine.cap == capacity == records.Length == sequences.Length == accessStates.Length
      && records[..] == machine.records && sequences[..] == machine.words && accessStates[..] == machine.access
      && lastReserved == machine.last && dropped == machine.dropped
      && Inv(machine)
    }

    constructor (payloads: array<Record>, words: array<nat>, states: array<nat>)
      requires 0 < payloads.Length == words.Length == states.Length && words != states
      modifies words, states
      ensures Mirrors() && capacity == payloads.Length
      ensures records == payloads && sequences == words && accessStates == states
      ensures machine == Init(payloads.Length, payloads[..])
    {
      capacity := payloads.Length;
      records, sequences, accessStates := payloads, words, states;
      lastReserved, dropped := 0, 0;
      machine := Init(payloads.Length, payloads[..]);
      new;
      for i := 0 to capacity
        invariant forall j :: 0 <= j < i ==> sequences[j] == 0 && accessStates[j] == 0
        invariant machine == Init(capacity, records[..]) && lastReserved == 0 && dropped == 0
      {
        sequences[i] := 0;
        accessStates[i] := 0;
      }
      InitInv(capacity, records[..]);
      assert sequences[..] == machine.words && accessStates[..] == machine.access;
    }

    /** Anything the other threads may do here; nothing when the call runs alone. */
    method Yield(ghost t: nat, ghost alone: bool)
      requires Mirrors()
      modifies this, records, sequences, accessStates
      ensures Mirrors() && PcOf(machine, t) == old(PcOf(machine, t))
      ensures OthersRan(old(machine), machine, t)
      ensures old(machine.log) <= machine.log
      ensures alone ==> machine == old(machine)
    {
      assert Exec(machine, []) == machine;
    }

    // ----- the atomic operations of a write; each moves the machine by one step of `t` -----

    method LoadReservation(ghost t: nat, evt: Event) returns (expected: nat)
      requires Mirrors() && Ready(PcOf(machine, t))
      modifies this`machine
      ensures Mirrors() && expected == lastReserved
      ensures machine == Goto(old(machine), t, Reserving(evt, expected))
    {
      expected := lastReserved;
      ApplyKeepsInv(machine, StartWrite(t, evt));
      machine := Apply(machine, StartWrite(t, evt));
    }

    /** The compare-exchange on the reservation counter; zero when it fails. */
    method TryReserve(ghost t: nat, ghost evt: Event, expected: nat) returns (r: nat)
      requires Mirrors() && PcOf(machine, t) == Reserving(evt, expected)
      modifies this
      ensures Mirrors() && machine == RingMachine.Reserve(old(machine), t, evt, expected)
      ensures r == if old(lastReserved) == expected < MAX_RING_SEQUENCE then expected + 1 else 0
    {
      ApplyKeepsInv(machine, Advance(t));
      if expected >= MAX_RING_SEQUENCE || lastReserved != expected {
        r := 0;
      } else {
        lastReserved := lastReserved + 1;
        r := expected + 1;
      }
      machine := Apply(machine, Advance(t));
    }

    method CountDrop(ghost t: nat, ghost evt: Event, ghost r: nat)
      requires Mirrors() && PcOf(machine, t) == Losing(evt, r)
      modifies this
      ensures Mirrors() && PcOf(machine, t) == Wrote(0)
      ensures machine.log == old(machine.log) && dropped == (old(dropped) + 1) % U64_LIMIT
    {
      assert PcShape(PcOf(machine, t), machine.cap, machine.last);
      ApplyKeepsInv(machine, Advance(t));
      dropped := (dropped + 1) % U64_LIMIT;
      machine := Apply(machine, Advance(t));
    }

    /** The compare-exchange that claims slot `i` for a writer. */
    method TryClaim(ghost t: nat, ghost evt: Event, ghost r: nat, i: nat) returns (ok: bool)
      requires Mirrors() && PcOf(machine, t) == Claiming(evt, r) && 0 < r && i == Home(r, capacity)
      modifies this`machine, accessStates
      ensures Mirrors() && ok == (old(accessStates[i]) == 0)
      ensures machine == if ok then Goto(Claim(old(machine), i, t, 1), t, Checking(evt, r))
                         else Goto(old(machine), t, Losing(evt, r))
    {
      ApplyKeepsInv(machine, Advance(t));
      ok := accessStates[i] == 0;
      if ok {
        accessStates[i] := 1;
      }
      machine := Apply(machine, Advance(t));
      assert accessStates[..] == machine.access;
    }

    /** Reads the word of the claimed slot and decides whether the reservation is still the newer. */
    method LoadCommitted(ghost t: nat, ghost evt: Event, r: nat, i: nat) returns (word: nat)
      requires Mirrors() && PcOf(machine, t) == Checking(evt, r) && 0 < r && i == Home(r, capacity)
      modifies this`machine
      ensures Mirrors() && word == sequences[i]
      ensures machine == Goto(old(machine), t,
                if word % 2 != 0 || (word != 0 && word / 2 >= r) then Rejecting(evt, r) else Marking(evt, r))
    {
      ApplyKeepsInv(machine, Advance(t));
      word := sequences[i];
      machine := Apply(machine, Advance(t));
    }

    /** Gives slot `i` back without having changed it. */
    method Reject(ghost t: nat, ghost evt: Event, ghost r: nat, i: nat)
      requires Mirrors() && PcOf(machine, t) == Rejecting(evt, r) && 0 < r && i == Home(r, capacity)
      modifies this`machine, accessStates
      ensures Mirrors() && machine == Goto(Release(old(machine), i), t, Losing(evt, r))
    {
      ApplyKeepsInv(machine, Advance(t));
      accessStates[i] := 0;
      machine := Apply(machine, Advance(t));
      assert accessStates[..] == machine.access;
    }

    method MarkOdd(ghost t: nat, ghost evt: Event, r: nat, i: nat)
      requires Mirrors() && PcOf(machine, t) == Marking(evt, r) && 0 < r && i == Home(r, capacity)
      modifies this`machine, sequences
      ensures Mirrors()
      ensures machine == Goto(old(machine).(words := old(machine).words[i := 2 * r + 1]), t, Filling(evt, r, 0))
    {
      ApplyKeepsInv(machine, Advance(t));
      sequences[i] := 2 * r + 1;
      machine := Apply(machine, Advance(t));
      assert sequences[..] == machine.words;
    }

    /** One plain store into the payload of slot `i`. */
    method StorePart(ghost t: nat, ghost evt: Event, ghost r: nat, ghost k: nat, i: nat, rec: Record)
      requires Mirrors() && PcOf(machine, t) == Filling(evt, r, k) && 0 < r <= MAX_RING_SEQUENCE
      requires i == Home(r, capacity) && k < FILL_STORES
      requires (k == PAYLOAD_PARTS ==> records[i].length < MAX_MESSAGE_BYTES) && rec == FillPart(records[i], evt, r, k)
      modifies this`machine, records
      ensures Mirrors()
      ensures machine == Goto(old(machine).(records := old(machine).records[i := rec]), t, Filling(evt, r, k + 1))
    {
      ApplyKeepsInv(machine, Advance(t));
      records[i] := rec;
      machine := Apply(machine, Advance(t));
      assert records[..] == machine.records;
    }

    method MarkEven(ghost t: nat, ghost evt: Event, r: nat, i: nat)
      requires Mirrors() && PcOf(machine, t) == Filling(evt, r, FILL_STORES) && 0 < r && i == Home(r, capacity)
      modifies this`machine, sequences
      ensures Mirrors()
      ensures machine == Goto(old(machine).(words := old(machine).words[i := 2 * r]), t, Releasing(evt, r))
    {
      ApplyKeepsInv(machine, Advance(t));
      sequences[i] := 2 * r;
      machine := Apply(machine, Advance(t));
      assert sequences[..] == machine.words;
    }

    method ReleaseCommitted(ghost t: nat, ghost evt: Event, ghost r: nat, i: nat)
      requires Mirrors() && PcOf(machine, t) == Releasing(evt, r) && 0 < r && i == Home(r, capacity)
      modifies this`machine, accessStates
      ensures Mirrors() && r <= old(machine).last && machine == Publish(old(machine), t, r)
    {
      assert PcShape(PcOf(machine, t), machine.cap, machine.last);
      ApplyKeepsInv(machine, Advance(t));
      accessStates[i] := 0;
      machine := Apply(machine, Advance(t));
      assert accessStates[..] == machine.access;
    }

    /** One payload store, and whatever the other threads do after it. */
    method FillNext(ghost s0: State, ghost t: nat, ghost evt: Event, ghost r: nat, ghost k: nat,
                    ghost alone: bool, i: nat, rec: Record)
      requires Mirrors() && Filled(s0, machine, t, evt, r, k, alone) && k < FILL_STORES && i == Home(r, capacity)
      requires r <= MAX_RING_SEQUENCE && (k == PAYLOAD_PARTS ==> records[i].length < MAX_MESSAGE_BYTES)
      requires rec == FillPart(records[i], evt, r, k)
      modifies this, records, sequences, accessStates
      ensures Mirrors() && Filled(s0, machine, t, evt, r, k + 1, alone)
    {
      StorePart(t, evt, r, k, i, rec);
      Yield(t, alone);
    }

    method FillHeader(ghost s0: State, ghost t: nat, evt: Event, r: nat, ghost alone: bool, i: nat)
      requires Mirrors() && Filled(s0, machine, t, evt, r, 0, alone) && i == Home(r, capacity)
      requires r <= MAX_RING_SEQUENCE
      modifies this, records, sequences, accessStates
      ensures Mirrors() && Filled(s0, machine, t, evt, r, 4, alone)
    {
      FillNext(s0, t, evt, r, 0, alone, i, records[i].(sequence := 2 * r));
      FillNext(s0, t, evt, r, 1, alone, i, records[i].(timestamp := evt.timestamp));
      FillNext(s0, t, evt, r, 2, alone, i, records[i].(eventValue := evt.id));
      FillNext(s0, t, evt, r, 3, alone, i, records[i].(sourceValue := evt.source));
    }

    method FillScalars(ghost s0: State, ghost t: nat, evt: Event, r: nat, ghost alone: bool, i: nat, length: nat)
      requires Mirrors() && Filled(s0, machine, t, evt, r, 4, alone) && i == Home(r, capacity)
      requires r <= MAX_RING_SEQUENCE && length == CopiedLength(evt.text)
      modifies this, records, sequences, accessStates
      ensures Mirrors() && Filled(s0, machine, t, evt, r, SCALARS, alone)
    {
      FillNext(s0, t, evt, r, 4, alone, i, records[i].(correlation := evt.correlation));
      FillNext(s0, t, evt, r, 5, alone, i, records[i].(level := evt.level));
      FillNext(s0, t, evt, r, 6, alone, i, records[i].(length := length));
    }

    method FillText(ghost s0: State, ghost t: nat, evt: Event, r: nat, ghost alone: bool, i: nat, length: nat)
      requires Mirrors() && Filled(s0, machine, t, evt, r, SCALARS, alone) && i == Home(r, capacity)
      requires r <= MAX_RING_SEQUENCE && length == CopiedLength(evt.text)
      modifies this, records, sequences, accessStates
      ensures Mirrors() && Filled(s0, machine, t, evt, r, SCALARS + length, alone)
    {
      for j := 0 to length
        invariant Mirrors() && Filled(s0, machine, t, evt, r, SCALARS + j, alone)
      {
        FillNext(s0, t, evt, r, SCALARS + j, alone, i, records[i].(message := records[i].message[j := evt.text[j]]));
      }
    }

    method FillZeros(ghost s0: State, ghost t: nat, ghost evt: Event, r: nat, ghost alone: bool, i: nat, length: nat)
      requires r <= MAX_RING_SEQUENCE && length == CopiedLength(evt.text)
      requires Mirrors() && Filled(s0, machine, t, evt, r, SCALARS + length, alone) && i == Home(r, capacity)
      modifies this, records, sequences, accessStates
      ensures Mirrors() && Filled(s0, machine, t, evt, r, PAYLOAD_PARTS, alone)
    {
      for j := length to MAX_MESSAGE_BYTES
        invariant Mirrors() && Filled(s0, machine, t, evt, r, SCALARS + j, alone)
      {
        FillNext(s0, t, evt, r, SCALARS + j, alone, i, records[i].(message := records[i].message[j := 0]));
      }
    }

    method FillPayload(ghost s0: State, ghost t: nat, evt: Event, r: nat, ghost alone: bool, i: nat)
      requires Mirrors() && Filled(s0, machine, t, evt, r, 0, alone) && i == Home(r, capacity)
      requires r <= MAX_RING_SEQUENCE
      modifies this, records, sequences, accessStates
      ensures Mirrors() && Filled(s0, machine, t, evt, r, FILL_STORES, alone)
    {
      var length := if |evt.text| < MAX_MESSAGE_BYTES then |evt.text| else MAX_MESSAGE_BYTES - 1;
      FillHeader(s0, t, evt, r, alone, i);
      FillScalars(s0, t, evt, r, alone, i, length);
      FillText(s0, t, evt, r, alone, i, length);
      FillZeros(s0, t, evt, r, alone, i, length);
      FilledLength(machine, t);
      FillNext(s0, t, evt, r, PAYLOAD_PARTS, alone, i,
               records[i].(message := records[i].message[records[i].length := 0]));
    }

    /** Takes the next reservation; zero when another writer took it first or none is left. */
    method Reserve(evt: Event, ghost t: nat, ghost alone: bool) returns (r: nat)
      requires Mirrors() && Ready(PcOf(machine, t)) && (alone ==> Settled(machine))
      modifies this, records, sequences, accessStates
      ensures Mirrors() && PcOf(machine, t) == if r == 0 then Losing(evt, 0) else Claiming(evt, r)
      ensures alone ==>
                if old(lastReserved) < MAX_RING_SEQUENCE then
                  r == old(lastReserved) + 1 && OnWay(old(machine), machine, t, evt, r, 0)
                                                            && machine.words == old(machine.words)
                else r == 0 && machine == Goto(old(machine), t, Losing(evt, 0))
    {
      if alone && lastReserved < MAX_RING_SEQUENCE { SettledIsFree(machine, Home(lastReserved + 1, capacity)); }
      var expected := LoadReservation(t, evt);
      Yield(t, alone);
      r := TryReserve(t, evt, expected);
      Yield(t, alone);
    }

    /** Claims the home slot of `r` unless another thread holds it. */
    method ClaimHome(ghost s0: State, ghost evt: Event, r: nat, i: nat, ghost t: nat, ghost alone: bool)
      returns (ok: bool)
      requires Mirrors() && PcOf(machine, t) == Claiming(evt, r) && 0 < r && i == Home(r, capacity)
      requires alone ==> OnWay(s0, machine, t, evt, r, 0) && machine.words == s0.words
      modifies this, records, sequences, accessStates
      ensures Mirrors() && PcOf(machine, t) == if ok then Checking(evt, r) else Losing(evt, r)
      ensures alone ==> ok && OnWay(s0, machine, t, evt, r, 1) && machine.words == s0.words
    {
      ok := TryClaim(t, evt, r, i);
      Yield(t, alone);
    }

    /** Gives the claimed slot back when it already shows this reservation or a newer one. */
    method CheckHome(ghost s0: State, ghost evt: Event, r: nat, i: nat, ghost t: nat, ghost alone: bool)
      returns (ok: bool)
      requires Mirrors() && PcOf(machine, t) == Checking(evt, r) && 0 < r && i == Home(r, capacity)
      requires alone ==> Inv(s0) && Settled(s0) && OnWay(s0, machine, t, evt, r, 1) && machine.words == s0.words
      modifies this, records, sequences, accessStates
      ensures Mirrors() && PcOf(machine, t) == if ok then Marking(evt, r) else Losing(evt, r)
      ensures alone ==> ok && OnWay(s0, machine, t, evt, r, 1)
    {
      if alone { SettledIsOlder(s0, i); }
      var committed := LoadCommitted(t, evt, r, i);
      Yield(t, alone);
      if committed % 2 != 0 || (committed != 0 && committed / 2 >= r) {
        Reject(t, evt, r, i);
        Yield(t, alone);
        return false;
      }
      return true;
    }

    /** Commits the filled slot. */
    method CommitWord(ghost s0: State, ghost evt: Event, r: nat, i: nat, ghost t: nat, ghost alone: bool)
      requires Mirrors() && Filled(s0, machine, t, evt, r, FILL_STORES, alone) && i == Home(r, capacity)
      modifies this, records, sequences, accessStates
      ensures Mirrors() && PcOf(machine, t) == Releasing(evt, r)
      ensures alone ==> OnWay(s0, machine, t, evt, r, 1) && machine.words[i] == 2 * r
    {
      ghost var s1 := machine;
      MarkEven(t, evt, r, i);
      if alone { CommittedOnWay(s0, s1, machine, t, evt, r); }
      Yield(t, alone);
    }

    /** Commits the filled slot and releases it. */
    method CommitHome(ghost s0: State, ghost evt: Event, r: nat, i: nat, ghost t: nat, ghost alone: bool)
      requires Mirrors() && Filled(s0, machine, t, evt, r, FILL_STORES, alone) && i == Home(r, capacity)
      modifies this, records, sequences, accessStates
      ensures Mirrors() && PcOf(machine, t) == Wrote(2 * r)
      ensures r <= machine.last && machine.log[r - 1] == evt && machine.fates[r - 1] == Published
      ensures alone ==> OnWay(s0, machine, t, evt, r, 0) && machine.words[i] == 2 * r
    {
      CommitWord(s0, evt, r, i, t, alone);
      ghost var s1 := machine;
      ReleasedEvent(s1, t);
      ReleaseCommitted(t, evt, r, i);
      if alone { PublishedOnWay(s0, s1, machine, t, evt, r); }
    }

    /** Marks the claimed slot odd, fills it, commits it and releases it. */
    method StoreHome(ghost s0: State, evt: Event, r: nat, i: nat, ghost t: nat, ghost alone: bool)
      requires Mirrors() && PcOf(machine, t) == Marking(evt, r) && 0 < r && i == Home(r, capacity)
      requires alone ==> OnWay(s0, machine, t, evt, r, 1)
      modifies this, records, sequences, accessStates
      ensures Mirrors() && PcOf(machine, t) == Wrote(2 * r)
      ensures r <= machine.last && machine.log[r - 1] == evt && machine.fates[r - 1] == Published
      ensures alone ==> OnWay(s0, machine, t, evt, r, 0) && machine.words[i] == 2 * r
    {
      MarkOdd(t, evt, r, i);
      Yield(t, alone);
      assert r <= MAX_RING_SEQUENCE by { assert PcShape(PcOf(machine, t), machine.cap, machine.last); }
      FillPayload(s0, t, evt, r, alone, i);
      CommitHome(s0, evt, r, i, t, alone);
    }

    /** The rest of a write that holds reservation `r`. */
    method WriteReserved(ghost s0: State, evt: Event, r: nat, ghost t: nat, ghost alone: bool) returns (result: nat)
      requires Mirrors() && PcOf(machine, t) == Claiming(evt, r) && 0 < r
      requires alone ==> Inv(s0) && Settled(s0) && OnWay(s0, machine, t, evt, r, 0) && machine.words == s0.words
      modifies this, records, sequences, accessStates
      ensures Mirrors() && PcOf(machine, t) == Wrote(result)
      ensures result == 0 || result == 2 * r
      ensures result != 0 ==> r <= machine.last && machine.log[r - 1] == evt && machine.fates[r - 1] == Published
      ensures alone ==> result != 0 && Settled(machine) && OnWay(s0, machine, t, evt, r, 0)
    {
      var i := (r - 1) % capacity;
      var ok := ClaimHome(s0, evt, r, i, t, alone);
      if ok {
        ok := CheckHome(s0, evt, r, i, t, alone);
      }
      if !ok {
        CountDrop(t, evt, r);
        return 0;
      }
      StoreHome(s0, evt, r, i, t, alone);
      if alone {
        SettledAgain(s0, machine, t, evt);
      }
      return 2 * r;
    }

    /** The home slot of `r` is free and shows `evt` under the committed word of `r`. */
    ghost predicate ShowsEvent(r: nat, evt: Event)
      reads this, records, sequences, accessStates
    {
      && 0 < r && 0 < capacity == records.Length == sequences.Length == accessStates.Length
      && var i := (r - 1) % capacity;
         accessStates[i] == 0 && sequences[i] == 2 * r && records[i].sequence == 2 * r && Carries(records[i], evt)
    }

    lemma WrittenShows(r: nat, evt: Event)
      requires Mirrors() && Settled(machine) && 0 < r == machine.last && machine.log[r - 1] == evt
      ensures ShowsEvent(r, evt)
    {
      var i := Home(r, capacity);
      LastIsShown(machine);
      assert records[..][i] == machine.records[i] && sequences[..][i] == machine.words[i];
      assert accessStates[..][i] == machine.access[i];
    }

    /** A write by `t`, with the other threads free to run between any two of its operations. */
    method Write(evt: Event, ghost t: nat, ghost alone: bool) returns (result: nat)
      requires Mirrors() && Ready(PcOf(machine, t)) && (alone ==> Settled(machine))
      modifies this, records, sequences, accessStates
      ensures Mirrors() && PcOf(machine, t) == Wrote(result)
      ensures result != 0 ==> result % 2 == 0 && 0 < result / 2 <= machine.last
                              && machine.log[result / 2 - 1] == evt && machine.fates[result / 2 - 1] == Published
      ensures alone && old(lastReserved) < MAX_RING_SEQUENCE ==>
                result == 2 * (old(lastReserved) + 1) && machine.log == old(machine.log) + [evt]
                && dropped == old(dropped) && Settled(machine)
                && ShowsEvent(old(lastReserved) + 1, evt)
      ensures alone && old(lastReserved) == MAX_RING_SEQUENCE ==>
                result == 0 && machine.log == old(machine.log) && dropped == (old(dropped) + 1) % U64_LIMIT
    {
      ghost var s0 := machine;
      var r := Reserve(evt, t, alone);
      if r == 0 {
        CountDrop(t, evt, 0);
        result := 0;
      } else {
        result := WriteReserved(s0, evt, r, t, alone);
        if alone { WrittenShows(r, evt); }
      }
    }

    // ----- the atomic operations of a capture -----

    method LoadWatermark(ghost t: nat, ghost max: nat) returns (watermark: nat)
      requires Mirrors() && PcOf(machine, t) == Opening(max)
      modifies this`machine
      ensures Mirrors() && watermark == lastReserved
      ensures machine == Goto(old(machine), t, Sampling(NO_SNAPSHOT.(watermark := watermark), max))
    {
      watermark := lastReserved;
      ApplyKeepsInv(machine, Advance(t));
      machine := Apply(machine, Advance(t));
    }

    method LoadDropped(ghost t: nat, ghost snap: Snapshot, ghost max: nat) returns (value: u64)
      requires Mirrors() && PcOf(machine, t) == Sampling(snap, max)
      modifies this`machine
      ensures Mirrors() && value == dropped
      ensures machine == Goto(old(machine), t,
                if snap.watermark == 0 then Captured(snap.(dropped := value), max)
                else Visiting(snap.(dropped := value).(status := Valid), max, 0))
    {
      value := dropped;
      ApplyKeepsInv(machine, Advance(t));
      machine := Apply(machine, Advance(t));
    }

    /** The compare-exchange that claims slot `i` for an inspector. */
    method TryInspect(ghost t: nat, ghost snap: Snapshot, ghost max: nat, i: nat) returns (ok: bool)
      requires Mirrors() && i < capacity && PcOf(machine, t) == Visiting(snap, max, i)
      modifies this`machine, accessStates
      ensures Mirrors() && ok == (old(accessStates[i]) == 0)
      ensures machine == if ok then Goto(Claim(old(machine), i, t, 2), t, Loading(snap, max, i))
                         else Goto(old(machine), t, Visiting(snap.(busy := snap.busy + 1), max, i + 1))
    {
      ApplyKeepsInv(machine, Advance(t));
      ok := accessStates[i] == 0;
      if ok {
        accessStates[i] := 2;
      }
      machine := Apply(machine, Advance(t));
      assert accessStates[..] == machine.access;
    }

    method LoadInspected(ghost t: nat, ghost snap: Snapshot, ghost max: nat, i: nat) returns (word: nat)
      requires Mirrors() && i < capacity && PcOf(machine, t) == Loading(snap, max, i)
      modifies this`machine
      ensures Mirrors() && word == sequences[i]
      ensures machine == Goto(old(machine), t,
                if word == 0 then Leaving(snap.(emptySlots := snap.emptySlots + 1), max, i)
                else Copying(snap, max, i, word, 0, BlankRecord()))
    {
      ApplyKeepsInv(machine, Advance(t));
      word := sequences[i];
      machine := Apply(machine, Advance(t));
    }

    /** Reads part `k` of the inspected payload into the copy. */
    method ReadPart(ghost t: nat, ghost snap: Snapshot, ghost max: nat, i: nat, ghost word: nat, k: nat, copy: Record)
      returns (copy': Record)
      requires Mirrors() && i < capacity && k < PAYLOAD_PARTS
      requires PcOf(machine, t) == Copying(snap, max, i, word, k, copy)
      modifies this`machine
      ensures Mirrors() && copy' == CopyPart(copy, records[i], k)
      ensures machine == Goto(old(machine), t, Copying(snap, max, i, word, k + 1, copy'))
    {
      ApplyKeepsInv(machine, Advance(t));
      copy' := CopyPart(copy, records[i], k);
      machine := Apply(machine, Advance(t));
    }

    ghost method BookCopy(t: nat, snap: Snapshot, max: nat, i: nat, word: nat, copy: Record)
      requires Mirrors() && i < capacity && 0 < max && |snap.entries| <= max
      requires PcOf(machine, t) == Copying(snap, max, i, word, PAYLOAD_PARTS, copy)
      modifies this`machine
      ensures Mirrors()
      ensures machine == Goto(old(machine), t, Leaving(Classify(snap, max, i, capacity, word, copy), max, i))
    {
      ApplyKeepsInv(machine, Advance(t));
      machine := Apply(machine, Advance(t));
    }

    method LeaveSlot(ghost t: nat, ghost snap: Snapshot, ghost max: nat, i: nat)
      requires Mirrors() && i < capacity && PcOf(machine, t) == Leaving(snap, max, i)
      modifies this`machine, accessStates
      ensures Mirrors() && machine == Goto(Release(old(machine), i), t, Visiting(snap, max, i + 1))
    {
      ApplyKeepsInv(machine, Advance(t));
      accessStates[i] := 0;
      machine := Apply(machine, Advance(t));
      assert accessStates[..] == machine.access;
    }

    ghost method EndWalk(t: nat, snap: Snapshot, max: nat)
      requires Mirrors() && PcOf(machine, t) == Visiting(snap, max, capacity)
      modifies this`machine
      ensures Mirrors() && machine == Goto(old(machine), t, Captured(Conclude(snap), max))
    {
      ApplyKeepsInv(machine, Advance(t));
      machine := Apply(machine, Advance(t));
    }

    /** Copies the inspected payload part by part; alone, nothing else moves. */
    method CopyRecord(ghost t: nat, ghost alone: bool, ghost snap: Snapshot, ghost max: nat, i: nat, ghost word: nat)
      returns (copy: Record)
      requires Mirrors() && i < capacity && PcOf(machine, t) == Copying(snap, max, i, word, 0, BlankRecord())
      modifies this, records, sequences, accessStates
      ensures Mirrors() && PcOf(machine, t) == Copying(snap, max, i, word, PAYLOAD_PARTS, copy)
      ensures alone ==> OnlyMoved(old(machine), machine, t)
    {
      ghost var s0 := machine;
      copy := BlankRecord();
      for k := 0 to PAYLOAD_PARTS
        invariant Mirrors() && PcOf(machine, t) == Copying(snap, max, i, word, k, copy)
        invariant alone ==> OnlyMoved(s0, machine, t)
      {
        copy := ReadPart(t, snap, max, i, word, k, copy);
        Yield(t, alone);
      }
    }

    /** Copies a claimed non-empty slot and books it. */
    method CopyHeld(receipt: Receipt, max: nat, i: nat, ghost t: nat, ghost alone: bool, ghost snap: Snapshot,
                    word: nat)
      returns (ghost snap': Snapshot)
      requires Mirrors() && i < capacity && 0 < max <= WINDOW_LIMIT && |snap.entries| <= max
      requires PcOf(machine, t) == Copying(snap, max, i, word, 0, BlankRecord()) && receipt.Shows(snap)
      requires {receipt, receipt.entries} !! {this, records, sequences, accessStates}
      modifies this, records, sequences, accessStates, receipt, receipt.entries
      ensures Mirrors() && PcOf(machine, t) == Leaving(snap', max, i)
      ensures receipt.Shows(snap') && |snap'.entries| <= max
      ensures alone ==> OnlyMoved(old(machine), machine, t)
      ensures alone && old(lastReserved) == snap.watermark ==>
                snap'.busy == snap.busy && snap'.afterWatermark == snap.afterWatermark
                && snap'.seen == snap.seen + [old(records[i])] && snap'.watermark == snap.watermark
    {
      var copy := CopyRecord(t, alone, snap, max, i, word);
      if alone && lastReserved == snap.watermark { HeldCopyCounts(machine, t); }
      receipt.Book(max, i, capacity, word, copy, snap);
      snap' := Classify(snap, max, i, capacity, word, copy);
      BookCopy(t, snap, max, i, word, copy);
    }

    /** Reads and books the slot that the inspector has claimed. */
    method InspectHeld(receipt: Receipt, max: nat, i: nat, ghost t: nat, ghost alone: bool, ghost snap: Snapshot)
      returns (ghost snap': Snapshot)
      requires Mirrors() && i < capacity && 0 < max <= WINDOW_LIMIT && |snap.entries| <= max
      requires PcOf(machine, t) == Loading(snap, max, i) && receipt.Shows(snap)
      requires {receipt, receipt.entries} !! {this, records, sequences, accessStates}
      modifies this, records, sequences, accessStates, receipt, receipt.entries
      ensures Mirrors() && PcOf(machine, t) == Leaving(snap', max, i)
      ensures receipt.Shows(snap') && |snap'.entries| <= max
      ensures alone ==> OnlyMoved(old(machine), machine, t)
      ensures alone && old(lastReserved) == snap.watermark ==>
                snap'.busy == snap.busy && snap'.afterWatermark == snap.afterWatermark
                && snap'.seen == snap.seen + (if old(sequences[i]) == 0 then [] else [old(records[i])])
                && snap'.watermark == snap.watermark
    {
      var word := LoadInspected(t, snap, max, i);
      Yield(t, alone);
      if word == 0 {
        snap' := receipt.CountEmpty(snap);
      } else {
        snap' := CopyHeld(receipt, max, i, t, alone, snap, word);
      }
    }

    /** Claims slot `i` at most once, copies it and books it. */
    method InspectSlot(receipt: Receipt, max: nat, i: nat, ghost t: nat, ghost alone: bool, ghost snap: Snapshot)
      returns (ghost snap': Snapshot)
      requires Mirrors() && i < capacity && 0 < max <= WINDOW_LIMIT && |snap.entries| <= max
      requires PcOf(machine, t) == Visiting(snap, max, i) && receipt.Shows(snap)
      requires {receipt, receipt.entries} !! {this, records, sequences, accessStates}
      modifies this, records, sequences, accessStates, receipt, receipt.entries
      ensures Mirrors() && PcOf(machine, t) == Visiting(snap', max, i + 1)
      ensures receipt.Shows(snap') && |snap'.entries| <= max
      ensures alone && old(accessStates[i]) == 0 ==> OnlyMoved(old(machine), machine, t)
      ensures alone && old(accessStates[i]) == 0 && old(lastReserved) == snap.watermark ==>
                snap'.busy == snap.busy && snap'.afterWatermark == snap.afterWatermark
                && snap'.seen == snap.seen + (if old(sequences[i]) == 0 then [] else [old(records[i])])
                && snap'.watermark == snap.watermark
    {
      ghost var s0 := machine;
      var claimed := TryInspect(t, snap, max, i);
      if !claimed {
        receipt.busySlots := receipt.busySlots + 1;
        snap' := snap.(busy := snap.busy + 1);
      } else {
        Yield(t, alone);
        snap' := InspectHeld(receipt, max, i, t, alone, snap);
        ghost var s1 := machine;
        LeaveSlot(t, snap', max, i);
        if alone { LeaveRestores(s0, s1, machine, t, i); }
      }
      Yield(t, alone);
    }

    ghost method StartCapture(t: nat, maxEntries: nat, max: nat) returns (snap: Snapshot)
      requires Mirrors() && Ready(PcOf(machine, t)) && max == Min(maxEntries, WINDOW_LIMIT)
      modifies this`machine
      ensures Mirrors() && snap == NO_SNAPSHOT
      ensures machine == Goto(old(machine), t, if max == 0 then Captured(snap, 0) else Opening(max))
    {
      ApplyKeepsInv(machine, RingMachine.StartCapture(t, maxEntries));
      machine := Apply(machine, RingMachine.StartCapture(t, maxEntries));
      snap := NO_SNAPSHOT;
    }

    method ReadWatermark(receipt: Receipt, max: nat, ghost t: nat, ghost alone: bool) returns (watermark: nat)
      requires Mirrors() && 0 < max <= WINDOW_LIMIT && PcOf(machine, t) == Opening(max) && receipt.Shows(NO_SNAPSHOT)
      requires {receipt, receipt.entries} !! {this, records, sequences, accessStates}
      modifies this, records, sequences, accessStates, receipt
      ensures Mirrors() && receipt.Shows(NO_SNAPSHOT.(watermark := watermark))
      ensures PcOf(machine, t) == Sampling(NO_SNAPSHOT.(watermark := watermark), max)
      ensures alone ==> OnlyMoved(old(machine), machine, t) && watermark == old(lastReserved)
    {
      watermark := LoadWatermark(t, max);
      receipt.highestSequence := watermark;
      Yield(t, alone);
    }

    /** Reads the loss counter; the walk starts unless nothing was ever reserved. */
    method ReadLoss(receipt: Receipt, max: nat, watermark: nat, ghost t: nat, ghost alone: bool)
      returns (ghost snap: Snapshot)
      requires Mirrors() && receipt.Shows(NO_SNAPSHOT.(watermark := watermark))
      requires PcOf(machine, t) == Sampling(NO_SNAPSHOT.(watermark := watermark), max)
      requires {receipt, receipt.entries} !! {this, records, sequences, accessStates}
      modifies this, records, sequences, accessStates, receipt
      ensures Mirrors() && receipt.Shows(snap)
      ensures snap == NO_SNAPSHOT.(watermark := watermark, dropped := snap.dropped,
                                  status := if watermark == 0 then Empty else Valid)
      ensures PcOf(machine, t) == if watermark == 0 then Captured(snap, max) else Visiting(snap, max, 0)
      ensures alone ==> OnlyMoved(old(machine), machine, t)
    {
      var loss := LoadDropped(t, NO_SNAPSHOT.(watermark := watermark), max);
      receipt.droppedRecords := loss;
      snap := NO_SNAPSHOT.(watermark := watermark, dropped := loss);
      if watermark != 0 {
        receipt.status := Valid;
        snap := snap.(status := Valid);
      }
      Yield(t, alone);
    }

    /** Visits one slot of the walk. */
    method VisitSlot(receipt: Receipt, max: nat, i: nat, ghost t: nat, ghost alone: bool,
                     ghost s0: State, ghost snap: Snapshot)
      returns (ghost snap': Snapshot)
      requires Mirrors() && i < capacity && 0 < max <= WINDOW_LIMIT && receipt.Shows(snap)
      requires Walked(s0, machine, t, snap, max, i, alone)
      requires {receipt, receipt.entries} !! {this, records, sequences, accessStates}
      modifies this, records, sequences, accessStates, receipt, receipt.entries
      ensures Mirrors() && receipt.Shows(snap') && Walked(s0, machine, t, snap', max, i + 1, alone)
    {
      snap' := InspectSlot(receipt, max, i, t, alone, snap);
      VisitFacts(machine, t);
    }

    /** Visits every slot once, in order. */
    method VisitAll(receipt: Receipt, max: nat, ghost t: nat, ghost alone: bool, ghost snap0: Snapshot)
      returns (ghost snap: Snapshot)
      requires Mirrors() && 0 < max <= WINDOW_LIMIT && receipt.Shows(snap0)
      requires Walked(machine, machine, t, snap0, max, 0, alone)
      requires {receipt, receipt.entries} !! {this, records, sequences, accessStates}
      modifies this, records, sequences, accessStates, receipt, receipt.entries
      ensures Mirrors() && receipt.Shows(snap) && Walked(old(machine), machine, t, snap, max, capacity, alone)
    {
      ghost var s0 := machine;
      snap := snap0;
      for i := 0 to capacity
        invariant Mirrors() && receipt.Shows(snap) && Walked(s0, machine, t, snap, max, i, alone)
      {
        snap := VisitSlot(receipt, max, i, t, alone, s0, snap);
      }
    }

    /** Walks every slot once and closes the receipt. */
    method Walk(receipt: Receipt, max: nat, ghost t: nat, ghost alone: bool, ghost snap0: Snapshot)
      returns (ghost snap: Snapshot)
      requires Mirrors() && 0 < max <= WINDOW_LIMIT && receipt.Shows(snap0)
      requires Walked(machine, machine, t, snap0, max, 0, alone)
      requires {receipt, receipt.entries} !! {this, records, sequences, accessStates}
      modifies this, records, sequences, accessStates, receipt, receipt.entries
      ensures Mirrors() && receipt.Shows(snap) && PcOf(machine, t) == Captured(snap, max)
      ensures alone ==> OnlyMoved(old(machine), machine, t) && Shaped(old(machine))
                        && snap.seen == Shown(old(machine), capacity)
                        && snap.busy == snap.afterWatermark == 0 && snap.watermark == snap0.watermark
    {
      snap := VisitAll(receipt, max, t, alone, snap0);
      receipt.Close(snap);
      EndWalk(t, snap, max);
      snap := Conclude(snap);
    }

    method OpenAndWalk(ghost s0: State, receipt: Receipt, max: nat, ghost t: nat, ghost alone: bool)
      returns (ghost snap: Snapshot)
      requires Mirrors() && 0 < max <= WINDOW_LIMIT && PcOf(machine, t) == Opening(max) && receipt.Shows(NO_SNAPSHOT)
      requires {receipt, receipt.entries} !! {this, records, sequences, accessStates}
      requires alone ==> Inv(s0) && Settled(s0) && OnlyMoved(s0, machine, t)
      modifies this, records, sequences, accessStates, receipt, receipt.entries
      ensures Mirrors() && receipt.Shows(snap) && PcOf(machine, t) == Captured(snap, max)
      ensures alone ==> OnlyMoved(s0, machine, t) && snap.entries == Newest(s0, max)
                        && snap.status == if snap.entries == [] then Empty else Valid
    {
      var watermark := ReadWatermark(receipt, max, t, alone);
      snap := ReadLoss(receipt, max, watermark, t, alone);
      if watermark != 0 {
        if alone { AllFree(machine, t); }
        ghost var s1 := machine;
        snap := Walk(receipt, max, t, alone, snap);
        if alone { SoloCapture(s0, s1, machine, t, snap, max); }
      }
    }

    /** A capture by `t`, with the other threads free to run between any two of its operations: every
        entry is whole, the receipt adds up, and the window is the newest of what the walk met. With
        no interference it is the newest events of the log, in order. */
    method CaptureNewest(maxEntries: nat, ghost t: nat, ghost alone: bool)
      returns (receipt: Receipt, ghost snap: Snapshot)
      requires Mirrors() && Ready(PcOf(machine, t)) && (alone ==> Settled(machine))
      modifies this, records, sequences, accessStates
      ensures Mirrors() && fresh(receipt) && receipt.Shows(snap)
      ensures PcOf(machine, t) == Captured(snap, Min(maxEntries, WINDOW_LIMIT))
      ensures CaptureOk(machine, snap, Min(maxEntries, WINDOW_LIMIT))
      ensures forall x :: x in snap.entries ==> ShowsItsEvent(machine, x)
      ensures alone ==>
                && OnlyMoved(old(machine), machine, t)
                && snap.entries == Newest(old(machine), Min(maxEntries, WINDOW_LIMIT))
                && snap.status == if snap.entries == [] then Empty else Valid
    {
      receipt := new Receipt();
      ghost var s0 := machine;
      var max := if maxEntries > WINDOW_LIMIT then WINDOW_LIMIT else maxEntries;
      snap := StartCapture(t, maxEntries, max);
      if max != 0 {
        Yield(t, alone);
        snap := OpenAndWalk(s0, receipt, max, t, alone);
      }
      CapturedIsOk(machine, t);
    }
  }

  /** What a capture of at most `k` entries returns for the log `events`: the newest of them, newest
      first, at most a ring full and at most the window. */
  ghost predicate ShowsTail(entries: seq<Record>, events: seq<Event>, capacity: nat, k: nat) {
    && |events| <= MAX_RING_SEQUENCE
    && |entries| == Min(Min(|events|, capacity), Min(k, 64))
    && forall j :: 0 <= j < |entries| ==>
         entries[j].sequence == 2 * (|events| - j) && Carries(entries[j], events[|events| - 1 - j])
  }

  lemma NewestShowsTail(s: State, k: nat)
    requires Shaped(s)
    ensures ShowsTail(Newest(s, Min(k, WINDOW_LIMIT)), s.log, s.cap, k)
  {
    var entries := Newest(s, Min(k, WINDOW_LIMIT));
    forall j | 0 <= j < |entries|
      ensures entries[j].sequence == 2 * (s.last - j) && Carries(entries[j], s.log[s.last - 1 - j])
    {
      BuiltCarries(s.log[s.last - 1 - j], s.last - j);
    }
  }

  lemma StartsSettled(s: State, payloads: seq<Record>)
    requires 0 < |payloads| && s == Init(|payloads|, payloads)
    ensures Settled(s) && PcOf(s, 0) == Idle && s.log == []
  {
  }

  /** A ring with a single user is a plain log: after writing `events` a capture shows its tail. */
  method WriteThenCapture(payloads: array<Record>, words: array<nat>, states: array<nat>, events: seq<Event>, k: nat)
    returns (receipt: Receipt, ghost snap: Snapshot)
    requires 0 < payloads.Length == words.Length == states.Length && words != states
    requires |events| <= MAX_RING_SEQUENCE
    modifies payloads, words, states
    ensures receipt.Shows(snap) && ShowsTail(snap.entries, events, payloads.Length, k)
  {
    var ring := new CrashRing(payloads, words, states);
    StartsSettled(ring.machine, payloads[..]);
    for i := 0 to |events|
      invariant ring.Mirrors() && ring.capacity == payloads.Length
      invariant ring.records == payloads && ring.sequences == words && ring.accessStates == states
      invariant Settled(ring.machine) && ring.machine.log == events[..i]
    {
      assert Ready(PcOf(ring.machine, 0)) && ring.machine.last == |ring.machine.log|;
      var result := ring.Write(events[i], 0, true);
      TakeOne(events, i);
    }
    TakeAll(events);
    assert Ready(PcOf(ring.machine, 0));
    NewestShowsTail(ring.machine, k);
    receipt, snap := ring.CaptureNewest(k, 0, true);
  }

  /** `t` has visited the slots before `i`; alone, it has met exactly what they show. */
  ghost predicate Walked(s0: State, s: State, t: nat, snap: Snapshot, max: nat, i: nat, alone: bool) {
    && PcOf(s, t) == Visiting(snap, max, i) && snap.status == Valid && |snap.entries| <= max
    && (alone ==>
          && Shaped(s0) && i <= s0.cap && OnlyMoved(s0, s, t) && (forall j :: 0 <= j < s0.cap ==> s0.access[j] == 0)
          && snap.seen == Shown(s0, i) && snap.busy == snap.afterWatermark == 0 && snap.watermark == s0.last)
  }

  /** The receipt of a walk is always open and about reservations already handed out. */
  lemma VisitFacts(s: State, t: nat)
    requires Inv(s) && PcOf(s, t).Visiting?
    ensures PcOf(s, t).snap.status == Valid && PcOf(s, t).snap.watermark <= s.last
  {
    assert ThreadOk(s, t);
  }

  lemma CapturedIsOk(s: State, t: nat)
    requires Inv(s) && PcOf(s, t).Captured?
    ensures CaptureOk(s, PcOf(s, t).snap, PcOf(s, t).max)
    ensures forall x :: x in PcOf(s, t).snap.entries ==> ShowsItsEvent(s, x)
  {
    assert ThreadOk(s, t);
    var snap := PcOf(s, t).snap;
    forall x | x in snap.entries ensures ShowsItsEvent(s, x) {
      assert x in snap.seen;
      GenuineShowsEvent(s, x, snap.watermark);
    }
  }

  lemma ShownSame(s0: State, s1: State, i: nat)
    requires Shaped(s0) && Shaped(s1) && i <= s0.cap
    requires s1.cap == s0.cap && s1.words == s0.words && s1.records == s0.records
    ensures Shown(s1, i) == Shown(s0, i)
  {
  }

  lemma SoloCapture(s0: State, s1: State, s: State, t: nat, snap: Snapshot, max: nat)
    requires Inv(s0) && Settled(s0) && Shaped(s1) && Inv(s) && OnlyMoved(s0, s1, t) && OnlyMoved(s1, s, t)
    requires PcOf(s, t) == Captured(snap, max)
    requires 0 < max && 0 < snap.watermark && snap.seen == Shown(s1, s1.cap) && snap.busy == snap.afterWatermark == 0
    ensures OnlyMoved(s0, s, t)
    ensures snap.entries == Newest(s0, max) && snap.status == if snap.entries == [] then Empty else Valid
  {
    CapturedIsOk(s, t);
    SettledIsStable(s0);
    ShownSame(s0, s1, s0.cap);
    NewestIsWindow(s0, snap.entries, max);
  }

  /** Claiming a free slot and leaving it again changes no shared word. */
  lemma LeaveRestores(s0: State, s1: State, s2: State, t: nat, i: nat)
    requires Inv(s0) && i < s0.cap && s0.access[i] == 0
    requires OnlyMoved(Claim(s0, i, t, 2), s1, t)
    requires s2 == Goto(Release(s1, i), t, PcOf(s2, t))
    ensures OnlyMoved(s0, s2, t)
  {
    ClaimedHasOwner(s0, i);
    assert Release(Claim(s0, i, t, 2), i) == s0;
    forall u | u != t ensures PcOf(s2, u) == PcOf(s0, u) {
      assert PcOf(s1, u) == PcOf(Claim(s0, i, t, 2), u);
      assert PcOf(s2, u) == PcOf(Release(s1, i), u);
    }
  }

  /** `s` is `s0` but for where `t` is. */
  ghost predicate OnlyMoved(s0: State, s: State, t: nat) {
    && s.cap == s0.cap && s.last == s0.last && s.dropped == s0.dropped && s.words == s0.words
    && s.access == s0.access && s.records == s0.records && s.log == s0.log && s.fates == s0.fates
    && s.owners == s0.owners && s.losses == s0.losses && s.finished == s0.finished
    && forall u :: u != t ==> PcOf(s, u) == PcOf(s0, u)
  }

  /** A finished copy from a slot at or below the watermark goes into the window. */
  lemma HeldCopyCounts(s: State, t: nat)
    requires Inv(s) && PcOf(s, t).Copying? && PcOf(s, t).k == PAYLOAD_PARTS && PcOf(s, t).i < s.cap
    requires s.last == PcOf(s, t).snap.watermark && 0 < PcOf(s, t).max && |PcOf(s, t).snap.entries| <= PcOf(s, t).max
    ensures var pc := PcOf(s, t);
            && pc.copy == s.records[pc.i]
            && var snap' := Classify(pc.snap, pc.max, pc.i, s.cap, pc.word, pc.copy);
               snap'.busy == pc.snap.busy && snap'.afterWatermark == pc.snap.afterWatermark
               && snap'.seen == pc.snap.seen + [pc.copy]
  {
    assert ThreadOk(s, t);
    var pc := PcOf(s, t);
    AgreeIsEqual(pc.copy, s.records[pc.i], pc.k);
  }

  /** `t` alone has moved between `s0` and `s`, and only slot `i` has changed; its claim is `mode`. */
  ghost predicate Solo(s0: State, s: State, t: nat, i: nat, mode: nat) {
    && Shaped(s0) && Shaped(s) && s.cap == s0.cap && i < s.cap
    && s.dropped == s0.dropped && s.access == s0.access[i := mode]
    && (forall u :: u != t ==> PcOf(s, u) == PcOf(s0, u))
    && (forall j :: 0 <= j < s.cap && j != i ==> s.words[j] == s0.words[j] && s.records[j] == s0.records[j])
  }

  /** `t` has made `k` payload stores for reservation `r`; alone, that is all that has happened. */
  ghost predicate Filled(s0: State, s: State, t: nat, evt: Event, r: nat, k: nat, alone: bool) {
    && Shaped(s) && 0 < r && PcOf(s, t) == Filling(evt, r, k)
    && (alone ==> OnWay(s0, s, t, evt, r, 1))
  }

  /** Alone, `t`'s write has so far changed only the log and the home slot of its reservation `r`,
      whose claim is `mode`. */
  ghost predicate OnWay(s0: State, s: State, t: nat, evt: Event, r: nat, mode: nat) {
    Shaped(s) && 0 < r && Solo(s0, s, t, Home(r, s.cap), mode) && s.log == s0.log + [evt] && r == s.last
  }

  /** Committing the home slot's word keeps a lone write on its way. */
  lemma CommittedOnWay(s0: State, s: State, s': State, t: nat, evt: Event, r: nat)
    requires OnWay(s0, s, t, evt, r, 1) && Shaped(s')
    requires s' == Goto(s.(words := s.words[Home(r, s.cap) := 2 * r]), t, Releasing(evt, r))
    ensures OnWay(s0, s', t, evt, r, 1) && s'.words[Home(r, s'.cap)] == 2 * r
  {
  }

  /** Publishing releases the home slot of a lone write and changes no word. */
  lemma PublishedOnWay(s0: State, s: State, s': State, t: nat, evt: Event, r: nat)
    requires OnWay(s0, s, t, evt, r, 1) && Shaped(s') && s' == Publish(s, t, r)
    ensures OnWay(s0, s', t, evt, r, 0) && s'.words == s.words
  {
  }

  /** A write that is about to release its slot holds a reservation of its own event. */
  lemma ReleasedEvent(s: State, t: nat)
    requires Inv(s) && PcOf(s, t).Releasing?
    ensures 0 < PcOf(s, t).r <= s.last && s.log[PcOf(s, t).r - 1] == PcOf(s, t).evt
  {
    assert ThreadOk(s, t);
  }

  lemma FilledLength(s: State, t: nat)
    requires Inv(s) && PcOf(s, t).Filling? && PcOf(s, t).k == PAYLOAD_PARTS
    ensures s.records[Home(PcOf(s, t).r, s.cap)].length < MAX_MESSAGE_BYTES
  {
    assert ThreadOk(s, t);
  }

  /** A write with no interference takes a settled ring to a settled ring with one more event. */
  lemma SettledAgain(s0: State, s: State, t: nat, evt: Event)
    requires Settled(s0) && OnWay(s0, s, t, evt, s.last, 0)
    requires Ready(PcOf(s, t)) && s.words[Home(s.last, s.cap)] == 2 * s.last
    ensures Settled(s)
  {
    assert forall u :: u != t ==> PcOf(s, u) == PcOf(s0, u);
    AgainNewest(s0, s, Home(s.last, s.cap));
  }

  lemma HomeInFirstRing(r: nat, cap: nat)
    requires 0 < r <= cap
    ensures Home(r, cap) == r - 1
  {
  }

  lemma StillNewest(s0: State, s: State, i: nat, r: nat)
    requires Shaped(s0) && Shaped(s) && ShowsNewest(s0) && s.cap == s0.cap && s.last == s0.last + 1
    requires i == Home(s.last, s.cap) && s.words[i] == 2 * s.last
    requires forall j :: 0 <= j < s.cap && j != i ==> s.words[j] == s0.words[j]
    requires 0 < r <= s.last < r + s.cap
    ensures s.words[Home(r, s.cap)] == 2 * r
  {
    if r < s.last {
      HomesDiffer(r, s.last, s.cap);
      assert s0.words[Home(r, s0.cap)] == 2 * r;
    }
  }

  lemma AgainNewest(s0: State, s: State, i: nat)
    requires Shaped(s0) && Shaped(s) && ShowsNewest(s0) && s.cap == s0.cap && s.last == s0.last + 1
    requires i == Home(s.last, s.cap) && s.words[i] == 2 * s.last
    requires forall j :: 0 <= j < s.cap && j != i ==> s.words[j] == s0.words[j]
    ensures ShowsNewest(s)
  {
    forall r | 0 < r <= s.last < r + s.cap ensures s.words[Home(r, s.cap)] == 2 * r {
      StillNewest(s0, s, i, r);
    }
    if s.last <= s.cap { HomeInFirstRing(s.last, s.cap); }
  }
}
