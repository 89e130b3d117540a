/** The newest-first window an inspector keeps while it walks the slots. */
module RingWindow {
  import opened Words
  import opened RingTypes

  /** Moves entry `j` forward past every entry with a smaller sequence. */
  function Bubble(entries: seq<Record>, j: nat): (r: seq<Record>)
    requires j < |entries|
    ensures |r| == |entries|
    decreases j
  {
    if j > 0 && entries[j].sequence > entries[j - 1].sequence then
      Bubble(entries[j := entries[j - 1]][j - 1 := entries[j]], j - 1)
    else entries
  }

  /** Offers one stable record to a window of at most `max` entries. */
  function Insert(entries: seq<Record>, max: nat, rec: Record): (r: seq<Record>)
    requires 0 < max && |entries| <= max
    ensures |r| == Min(max, |entries| + 1)
  {
    if |entries| < max then Bubble(entries + [rec], |entries|)
    else if rec.sequence > entries[max - 1].sequence then Bubble(entries[max - 1 := rec], max - 1)
    else entries
  }

  predicate Descending(entries: seq<Record>) {
    forall a, b :: 0 <= a < b < |entries| ==> entries[a].sequence > entries[b].sequence
  }

  /** `entries` is the descending list of the `max` largest-sequence records of `seen`. */
  predicate TopWindow(entries: seq<Record>, seen: seq<Record>, max: nat) {
    && Descending(entries)
    && |entries| == Min(max, |seen|)
    && (forall e :: e in entries ==> e in seen)
    && (forall x :: x in seen ==>
          x in entries || (0 < |entries| == max && x.sequence < entries[max - 1].sequence))
  }

  lemma {:induction false} BubbleKeepsRecords(entries: seq<Record>, j: nat)
    requires j < |entries|
    ensures multiset(Bubble(entries, j)) == multiset(entries)
    decreases j
  {
    if j > 0 && entries[j].sequence > entries[j - 1].sequence {
      BubbleKeepsRecords(entries[j := entries[j - 1]][j - 1 := entries[j]], j - 1);
    }
  }

  /** Bubbling the only entry out of place restores the order. */
  lemma {:induction false} BubbleSorts(entries: seq<Record>, j: nat)
    requires j < |entries|
    requires forall a, b :: 0 <= a < b < |entries| && a != j && b != j ==> entries[a].sequence > entries[b].sequence
    requires forall b :: j < b < |entries| ==> entries[j].sequence > entries[b].sequence
    requires forall a :: 0 <= a < j ==> entries[a].sequence != entries[j].sequence
    ensures Descending(Bubble(entries, j))
    decreases j
  {
    if j > 0 && entries[j].sequence > entries[j - 1].sequence {
      BubbleSorts(entries[j := entries[j - 1]][j - 1 := entries[j]], j - 1);
    }
  }

  lemma SameMembers(a: seq<Record>, b: seq<Record>)
    requires multiset(a) == multiset(b)
    ensures forall x :: x in a <==> x in b
  {
    forall x ensures x in a <==> x in b {
      assert x in a <==> x in multiset(a);
    }
  }

  /** Offering a record of a new sequence keeps the window the top of everything seen. */
  lemma InsertKeepsTop(entries: seq<Record>, seen: seq<Record>, max: nat, rec: Record)
    requires 0 < max && TopWindow(entries, seen, max)
    requires forall x :: x in seen ==> x.sequence != rec.sequence
    ensures TopWindow(Insert(entries, max, rec), seen + [rec], max)
  {
    if |entries| < max {
      GrowKeepsTop(entries, seen, max, rec);
    } else if rec.sequence > entries[max - 1].sequence {
      ReplaceKeepsTop(entries, seen, max, rec);
    } else {
      assert entries[max - 1] in seen;
    }
  }

  lemma GrowKeepsTop(entries: seq<Record>, seen: seq<Record>, max: nat, rec: Record)
    requires |entries| < max && TopWindow(entries, seen, max)
    requires forall x :: x in seen ==> x.sequence != rec.sequence
    ensures TopWindow(Bubble(entries + [rec], |entries|), seen + [rec], max)
  {
    var grown := entries + [rec];
    var r := Bubble(grown, |entries|);
    forall a | 0 <= a < |entries| ensures grown[a].sequence != rec.sequence {
      assert entries[a] in seen;
    }
    BubbleSorts(grown, |entries|);
    BubbleKeepsRecords(grown, |entries|);
    SameMembers(r, grown);
  }

  lemma ReplaceKeepsTop(entries: seq<Record>, seen: seq<Record>, max: nat, rec: Record)
    requires 0 < max == |entries| && TopWindow(entries, seen, max)
    requires rec.sequence > entries[max - 1].sequence
    requires forall x :: x in seen ==> x.sequence != rec.sequence
    ensures TopWindow(Bubble(entries[max - 1 := rec], max - 1), seen + [rec], max)
  {
    var replaced := entries[max - 1 := rec];
    var r := Bubble(replaced, max - 1);
    forall a | 0 <= a < max - 1 ensures replaced[a].sequence != rec.sequence {
      assert entries[a] in seen;
    }
    BubbleSorts(replaced, max - 1);
    BubbleKeepsRecords(replaced, max - 1);
    SameMembers(r, replaced);
    forall x | x in seen + [rec] ensures x in r || x.sequence < r[max - 1].sequence {
      OnlyOldestLeaves(entries, rec, r, x);
    }
  }

  lemma OnlyOldestLeaves(entries: seq<Record>, rec: Record, r: seq<Record>, x: Record)
    requires 0 < |entries| == |r| && Descending(entries) && rec.sequence > entries[|entries| - 1].sequence
    requires forall y :: y in r <==> y in entries[|entries| - 1 := rec]
    requires x == rec || x in entries || x.sequence < entries[|entries| - 1].sequence
    ensures x in r || x.sequence < r[|r| - 1].sequence
  {
    var replaced := entries[|entries| - 1 := rec];
    assert r[|r| - 1] in r;
    assert r[|r| - 1] in replaced;
    if x == rec {
      assert replaced[|entries| - 1] == rec;
    } else if x in entries && x != entries[|entries| - 1] {
      var a :| 0 <= a < |entries| && entries[a] == x;
      assert replaced[a] == x;
    }
  }

  predicate KeyedBySequence(records: seq<Record>) {
    forall x, y :: x in records && y in records && x.sequence == y.sequence ==> x == y
  }

  /** There is only one such window: its records and their order are fixed by `seen`. */
  lemma TopWindowUnique(a: seq<Record>, b: seq<Record>, seen: seq<Record>, max: nat)
    requires TopWindow(a, seen, max) && TopWindow(b, seen, max) && KeyedBySequence(seen)
    ensures a == b
  {
    PrefixEqual(a, b, seen, max, |a|);
  }

  lemma {:induction false} PrefixEqual(a: seq<Record>, b: seq<Record>, seen: seq<Record>, max: nat, n: nat)
    requires TopWindow(a, seen, max) && TopWindow(b, seen, max) && KeyedBySequence(seen)
    requires n <= |a|
    ensures forall k :: 0 <= k < n ==> a[k] == b[k]
    decreases n
  {
    if n > 0 {
      PrefixEqual(a, b, seen, max, n - 1);
      NotOlder(a, b, seen, max, n - 1);
      NotOlder(b, a, seen, max, n - 1);
      assert a[n - 1] in seen && b[n - 1] in seen;
    }
  }

  /** Past an equal prefix, neither window can hold an older record than the other. */
  lemma NotOlder(a: seq<Record>, b: seq<Record>, seen: seq<Record>, max: nat, i: nat)
    requires TopWindow(a, seen, max) && TopWindow(b, seen, max)
    requires i < |a| && forall k :: 0 <= k < i ==> a[k] == b[k]
    ensures a[i].sequence >= b[i].sequence
  {
    var x := b[i];
    assert x in seen;
    if x in a {
      LaterInWindow(a, b, x, i);
    }
  }

  lemma LaterInWindow(a: seq<Record>, b: seq<Record>, x: Record, i: nat)
    requires Descending(a) && Descending(b) && i < |a| && i < |b| && b[i] == x && x in a
    requires forall k :: 0 <= k < i ==> a[k] == b[k]
    ensures a[i].sequence >= x.sequence
  {
    var j :| 0 <= j < |a| && a[j] == x;
    assert j >= i;
  }
}
