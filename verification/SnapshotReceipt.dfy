/** The snapshot structure an inspector fills in place. */
module SnapshotReceipt {
  import opened Words
  import opened RingTypes
  import opened RingWindow
  import opened RingMachine

  datatype Entry = Entry(record: Record, stable: bool)

  ghost function RecordsOf(entries: seq<Entry>): (records: seq<Record>)
    ensures |records| == |entries|
  {
    seq(|entries|, i requires 0 <= i < |entries| => entries[i].record)
  }

  class Receipt {
    const entries: array<Entry>
    var status: Status
    var count: nat
    var highestSequence: nat
    var busySlots: nat
    var malformedSlots: nat
    var emptySlots: nat
    var afterWatermarkSlots: nat
    var droppedRecords: u64

    /** The fields and the first `count` entries are those of `snap`, every entry marked stable. */
    ghost predicate Shows(snap: Snapshot)
      reads this, entries
    {
      && entries.Length == WINDOW_LIMIT
      && count == |snap.entries| <= WINDOW_LIMIT && RecordsOf(entries[..count]) == snap.entries
      && (forall j :: 0 <= j < count ==> entries[j].stable)
      && status == snap.status && highestSequence == snap.watermark && droppedRecords == snap.dropped
      && busySlots == snap.busy && malformedSlots == snap.malformed
      && emptySlots == snap.emptySlots && afterWatermarkSlots == snap.afterWatermark
    }

    constructor ()
      ensures Shows(NO_SNAPSHOT) && fresh(entries)
    {
      entries := new Entry[WINDOW_LIMIT](_ => Entry(BlankRecord(), false));
      status := Empty;
      count, highestSequence, busySlots, malformedSlots, emptySlots := 0, 0, 0, 0, 0;
      afterWatermarkSlots, droppedRecords := 0, 0;
    }

    method CountEmpty(ghost snap: Snapshot) returns (ghost snap': Snapshot)
      requires Shows(snap)
      modifies this`emptySlots
      ensures snap' == snap.(emptySlots := snap.emptySlots + 1) && Shows(snap')
    {
      emptySlots := emptySlots + 1;
      snap' := snap.(emptySlots := snap.emptySlots + 1);
    }

    /** Moves the entry at `last` forward past every entry with a smaller sequence. */
    method MoveForward(last: nat)
      requires last < entries.Length
      modifies entries
      ensures RecordsOf(entries[..last + 1]) == Bubble(old(RecordsOf(entries[..last + 1])), last)
      ensures old(forall j :: 0 <= j <= last ==> entries[j].stable) ==> forall j :: 0 <= j <= last ==> entries[j].stable
    {
      var j := last;
      while j > 0
        invariant 0 <= j <= last
        invariant Bubble(RecordsOf(entries[..last + 1]), j) == Bubble(old(RecordsOf(entries[..last + 1])), last)
        invariant old(forall k :: 0 <= k <= last ==> entries[k].stable) ==>
                    forall k :: 0 <= k <= last ==> entries[k].stable
      {
        ghost var before := RecordsOf(entries[..last + 1]);
        if entries[j].record.sequence > entries[j - 1].record.sequence {
          entries[j], entries[j - 1] := entries[j - 1], entries[j];
          assert RecordsOf(entries[..last + 1]) == before[j := before[j - 1]][j - 1 := before[j]];
        } else {
          break;
        }
        j := j - 1;
      }
    }

    /** Offers a stable record to the window of at most `max` entries. */
    method Offer(copy: Record, max: nat, ghost snap: Snapshot)
      requires Shows(snap) && 0 < max <= WINDOW_LIMIT && count <= max
      modifies this`count, entries
      ensures Shows(snap.(entries := Insert(snap.entries, max, copy), seen := snap.seen + [copy]))
    {
      if count < max {
        ghost var before := RecordsOf(entries[..count]);
        entries[count] := Entry(copy, true);
        count := count + 1;
        assert RecordsOf(entries[..count]) == before + [copy];
        MoveForward(count - 1);
      } else if copy.sequence > entries[max - 1].record.sequence {
        ghost var before := RecordsOf(entries[..count]);
        entries[max - 1] := Entry(copy, true);
        assert RecordsOf(entries[..count]) == before[max - 1 := copy];
        MoveForward(max - 1);
      }
    }

    /** Books the slot `i` that was copied under `word`. */
    method Book(max: nat, i: nat, cap: nat, word: nat, copy: Record, ghost snap: Snapshot)
      requires Shows(snap) && 0 < max <= WINDOW_LIMIT && count <= max && 0 < cap
      modifies this`count, this`malformedSlots, this`afterWatermarkSlots, entries
      ensures Shows(Classify(snap, max, i, cap, word, copy))
    {
      var reservation := word / 2;
      var valid := word % 2 == 0 && reservation != 0 && reservation <= highestSequence
                   && (reservation - 1) % cap == i && copy.sequence == word && copy.length < MAX_MESSAGE_BYTES;
      if !valid {
        if word % 2 != 0 || copy.length >= MAX_MESSAGE_BYTES || reservation == 0 {
          malformedSlots := malformedSlots + 1;
        } else if reservation > highestSequence {
          afterWatermarkSlots := afterWatermarkSlots + 1;
        }
      } else {
        Offer(copy, max, snap);
      }
    }

    method Close(ghost snap: Snapshot)
      requires Shows(snap) && snap.status == Valid
      modifies this`status
      ensures Shows(Conclude(snap))
    {
      if busySlots != 0 || malformedSlots != 0 || afterWatermarkSlots != 0 {
        status := Partial;
      }
      if count == 0 && busySlots == 0 && malformedSlots == 0 && afterWatermarkSlots == 0 {
        status := Empty;
      }
    }
  }
}
