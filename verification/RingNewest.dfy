/** A ring with no call under way, read as the tail of a plain log of events. */
module RingNewest {
  import opened Words
  import opened Divisions
  import opened RingTypes
  import opened RingWindow
  import opened RingMachine
  import opened RingSafety

  /** Every slot shows the newest reservation that belongs in it. */
  ghost predicate ShowsNewest(s: State)
    requires Shaped(s)
  {
    && (forall r :: 0 < r <= s.last < r + s.cap ==> s.words[Home(r, s.cap)] == 2 * r)
    && (forall i :: s.last <= i < s.cap ==> s.words[i] == 0)
  }

  /** No call is under way, and every slot shows its newest reservation. */
  ghost predicate Settled(s: State) {
    Shaped(s) && (forall t :: Ready(PcOf(s, t))) && ShowsNewest(s)
  }

  /** While no call is under way every slot is free. */
  lemma SettledIsFree(s: State, i: nat)
    requires Inv(s) && i < s.cap
    ensures (forall t :: Ready(PcOf(s, t))) ==> s.access[i] == 0
  {
    assert SlotOk(s, i);
  }

  /** While no call is under way no slot shows a reservation that has not been handed out. */
  lemma SettledIsOlder(s: State, i: nat)
    requires Inv(s) && Settled(s) && i < s.cap
    ensures s.words[i] % 2 == 0 && s.words[i] / 2 <= s.last
  {
    assert SlotOk(s, i);
  }

  lemma SettledIsStable(s: State)
    requires Inv(s) && Settled(s)
    ensures forall i :: 0 <= i < s.cap ==> Stable(s, i)
  {
    forall i | 0 <= i < s.cap ensures Stable(s, i) {
      assert SlotOk(s, i);
    }
  }

  /** While no call is under way the home slot of the newest reservation is free and shows its event. */
  lemma LastIsShown(s: State)
    requires Inv(s) && Settled(s) && 0 < s.last
    ensures var i := Home(s.last, s.cap);
            && s.access[i] == 0 && s.words[i] == 2 * s.last
            && s.records[i].sequence == 2 * s.last && Carries(s.records[i], s.log[s.last - 1])
  {
    var i := Home(s.last, s.cap);
    SettledIsFree(s, i);
    SettledIsStable(s);
    assert s.words[i] == 2 * s.last && Stable(s, i);
    BuiltCarries(s.log[s.last - 1], s.last);
  }

  lemma HomesDiffer(a: nat, b: nat, cap: nat)
    requires 0 < cap && 0 < a < b < a + cap
    ensures Home(a, cap) != Home(b, cap)
  {
    NearModsDiffer(a - 1, b - a, cap);
  }

  /** With every other thread ready and `t` holding nothing, every slot is free. */
  lemma AllFree(s: State, t: nat)
    requires Inv(s) && (forall u :: u != t ==> Ready(PcOf(s, u))) && Held(PcOf(s, t), s.cap) == None
    ensures forall i :: 0 <= i < s.cap ==> s.access[i] == 0
  {
    forall i | 0 <= i < s.cap ensures s.access[i] == 0 {
      assert SlotOk(s, i);
    }
  }

  /** The records in the non-empty slots before slot `i`, in slot order. */
  ghost function Shown(s: State, i: nat): seq<Record>
    requires Shaped(s) && i <= s.cap
  {
    if i == 0 then [] else Shown(s, i - 1) + if s.words[i - 1] == 0 then [] else [s.records[i - 1]]
  }

  /** The records of the newest events of the log, newest first: at most `k`, at most a ring full. */
  ghost function Newest(s: State, k: nat): seq<Record>
    requires Shaped(s)
  {
    seq(Min(Min(s.last, s.cap), k), j requires 0 <= j < Min(Min(s.last, s.cap), k) =>
      Built(s.log[s.last - 1 - j], s.last - j))
  }

  /** `x` records reservation `r`, and `r` is among the newest ring full. */
  ghost predicate Recent(s: State, x: Record, r: nat)
    requires Shaped(s)
  {
    0 < r <= s.last < r + s.cap && x == Built(s.log[r - 1], r)
  }

  ghost predicate Latest(s: State) {
    Shaped(s) && ShowsNewest(s) && forall i :: 0 <= i < s.cap ==> Stable(s, i)
  }

  /** Stepping back from the last reservation in whole rings reaches every slot that was ever used. */
  lemma BackTo(last: nat, cap: nat, i: nat) returns (r: nat)
    requires i < cap && i < last
    ensures 0 < r <= last < r + cap && Home(r, cap) == i
  {
    var back := (last - 1 - i) % cap;
    var q := (last - 1 - i) / cap;
    r := last - back;
    assert last - 1 - i == q * cap + back;
    if q > 0 { ProductBound(q, cap); }
    DivModUnique(r - 1, q, i, cap);
  }

  lemma {:induction false} ShownFacts(s: State, i: nat)
    requires Latest(s) && i <= s.cap
    ensures |Shown(s, i)| == Min(i, s.last)
    ensures forall x :: x in Shown(s, i) ==> exists r :: Recent(s, x, r)
    ensures forall j :: 0 <= j < i && j < s.last ==> s.records[j] in Shown(s, i)
  {
    if i > 0 {
      ShownFacts(s, i - 1);
      if i - 1 < s.last {
        var r := BackTo(s.last, s.cap, i - 1);
        assert Stable(s, i - 1) && s.words[i - 1] == 2 * r;
        assert Recent(s, s.records[i - 1], r);
      }
    }
  }

  lemma HomeBelow(r: nat, cap: nat)
    requires 0 < cap && 0 < r
    ensures Home(r, cap) < r
  {
  }

  lemma NewestIsShown(s: State, r: nat)
    requires Latest(s) && 0 < r <= s.last < r + s.cap
    ensures Built(s.log[r - 1], r) in Shown(s, s.cap)
  {
    var i := Home(r, s.cap);
    ShownFacts(s, s.cap);
    HomeBelow(r, s.cap);
    assert Stable(s, i) && s.words[i] == 2 * r;
    assert s.records[i] in Shown(s, s.cap);
  }

  lemma ShownIsNewest(s: State, k: nat, x: Record, r: nat)
    requires Shaped(s) && 0 < k && Recent(s, x, r)
    ensures var newest := Newest(s, k);
            x in newest || (0 < |newest| == k && x.sequence < newest[k - 1].sequence)
  {
    var newest := Newest(s, k);
    if s.last - r < |newest| {
      assert newest[s.last - r] == x;
    } else {
      assert newest[k - 1] == Built(s.log[s.last - k], s.last - k + 1);
    }
  }

  lemma NewestDescends(s: State, k: nat)
    requires Shaped(s)
    ensures Descending(Newest(s, k))
  {
    var newest := Newest(s, k);
    forall a, b | 0 <= a < b < |newest| ensures newest[a].sequence > newest[b].sequence {
      assert newest[a] == Built(s.log[s.last - 1 - a], s.last - a);
      assert newest[b] == Built(s.log[s.last - 1 - b], s.last - b);
    }
  }

  lemma NewestIsTop(s: State, k: nat)
    requires Latest(s) && 0 < k
    ensures TopWindow(Newest(s, k), Shown(s, s.cap), k)
  {
    var seen, newest := Shown(s, s.cap), Newest(s, k);
    ShownFacts(s, s.cap);
    NewestDescends(s, k);
    forall e | e in newest ensures e in seen {
      var j :| 0 <= j < |newest| && newest[j] == e;
      NewestIsShown(s, s.last - j);
    }
    forall x | x in seen ensures x in newest || (0 < |newest| == k && x.sequence < newest[k - 1].sequence) {
      var r :| Recent(s, x, r);
      ShownIsNewest(s, k, x, r);
    }
  }

  lemma RecentIsKeyed(s: State, x: Record, y: Record, rx: nat, ry: nat)
    requires Shaped(s) && Recent(s, x, rx) && Recent(s, y, ry) && x.sequence == y.sequence
    ensures x == y
  {
  }

  /** With nothing under way, the window of a walk is the newest events of the log. */
  lemma NewestIsWindow(s: State, entries: seq<Record>, k: nat)
    requires Latest(s) && 0 < k && TopWindow(entries, Shown(s, s.cap), k)
    ensures entries == Newest(s, k)
  {
    var seen := Shown(s, s.cap);
    ShownFacts(s, s.cap);
    forall x, y | x in seen && y in seen && x.sequence == y.sequence ensures x == y {
      var rx :| Recent(s, x, rx);
      var ry :| Recent(s, y, ry);
      RecentIsKeyed(s, x, y, rx, ry);
    }
    NewestIsTop(s, k);
    TopWindowUnique(entries, Newest(s, k), seen, k);
  }
}
