/** The log file and its closed generations, shifted one place by every rotation. */
module LogFiles {
  import opened Words
  import opened Sequences

  const MAX_LINE: nat := 511

  /** The files by name: 0 is the open root, k > 0 the k-th closed generation. */
  type Family = map<nat, seq<byte>>

  /** A generation as the lines it received. */
  type Generation = seq<seq<byte>>

  function Renamed(files: Family, from: nat, to: nat): Family {
    if from in files then (files - {from})[to := files[from]] else files
  }

  function ClosedLimit(generations: nat): nat {
    if generations > 1 then generations else 1
  }

  function Kept(generations: nat, closings: nat): nat {
    if closings < ClosedLimit(generations) then closings else ClosedLimit(generations)
  }

  /** The family holds the open generation and the newest closed ones, newest first, nothing else. */
  ghost predicate Holds(files: Family, generations: nat, closed: seq<Generation>, current: Generation) {
    && (forall k: nat :: k in files <==> k <= Kept(generations, |closed|))
    && files[0] == Flatten(current)
    && forall k: nat :: 1 <= k <= Kept(generations, |closed|) ==> files[k] == Flatten(closed[|closed| - k])
  }

  /** A generation is closed by the first line that reaches the bound. */
  ghost predicate ClosedSize(g: Generation, bound: nat) {
    bound <= |Flatten(g)| <= Max(bound, 1) + MAX_LINE - 1
  }

  /** The contents from the oldest closed generation kept to the open one. */
  function Reading(files: Family, oldest: nat): seq<byte>
    requires forall k: nat :: k <= oldest ==> k in files
  {
    if oldest == 0 then files[0] else files[oldest] + Reading(files, oldest - 1)
  }

  /** Every line delivered so far, in order. */
  function Stream(closed: seq<Generation>, current: Generation): Generation {
    Flatten(closed) + current
  }

  lemma {:induction false} ReadingIsGenerations(
      files: Family, generations: nat, closed: seq<Generation>, current: Generation, k: nat)
    requires Holds(files, generations, closed, current) && k <= Kept(generations, |closed|)
    ensures Reading(files, k) == Flatten(Stream(closed[|closed| - k..], current))
    decreases k
  {
    if k == 0 {
      assert Stream(closed[|closed|..], current) == current;
    } else {
      var n := |closed| - k;
      var newer := Stream(closed[n + 1..], current);
      ReadingIsGenerations(files, generations, closed, current, k - 1);
      assert closed[n..][1..] == closed[n + 1..];
      Associate(closed[n], Flatten(closed[n + 1..]), current);
      FlattenAppend(closed[n], newer);
    }
  }

  /** Reading the family from its oldest closed file to the root gives a suffix of everything that was
      delivered, cut between two lines; nothing is missing while the family is not full. */
  lemma ReadingIsRecordSuffix(
      files: Family, generations: nat, closed: seq<Generation>, current: Generation)
    returns (cut: nat)
    requires Holds(files, generations, closed, current)
    ensures cut <= |Stream(closed, current)|
    ensures Reading(files, Kept(generations, |closed|)) == Flatten(Stream(closed, current)[cut..])
    ensures |closed| <= ClosedLimit(generations) ==> cut == 0
  {
    var kept := Kept(generations, |closed|);
    var gone, rest := closed[..|closed| - kept], closed[|closed| - kept..];
    cut := |Flatten(gone)|;
    ReadingIsGenerations(files, generations, closed, current, kept);
    assert closed == gone + rest;
    FlattenAppend(gone, rest);
    Associate(Flatten(gone), Flatten(rest), current);
    assert Stream(closed, current)[cut..] == Stream(rest, current);
  }

  /** Where the file now at place `k` was before the loop came down to `gen`; -1 for a free place. */
  function Source(k: nat, gen: nat, generations: nat): int {
    if k < gen || k > generations || gen == generations then k else if k == gen then -1 else k - 1
  }

  ghost predicate ShiftedDownTo(after: Family, before: Family, gen: nat, generations: nat) {
    forall k: nat ::
      && (k in after <==> Source(k, gen, generations) >= 0 && Source(k, gen, generations) in before)
      && (k in after ==> after[k] == before[Source(k, gen, generations)])
  }

  lemma ShiftOne(after: Family, mid: Family, before: Family, gen: nat, generations: nat)
    requires 1 < gen <= generations && ShiftedDownTo(mid, before, gen, generations)
    requires after == Renamed(mid - {gen}, gen - 1, gen)
    ensures ShiftedDownTo(after, before, gen - 1, generations)
  {
    forall k: nat
      ensures (k in after <==> Source(k, gen - 1, generations) >= 0 && Source(k, gen - 1, generations) in before)
              && (k in after ==> after[k] == before[Source(k, gen - 1, generations)])
    {
      assert gen - 1 in mid <==> gen - 1 in before;
      assert k in mid <==> Source(k, gen, generations) >= 0 && Source(k, gen, generations) in before;
    }
  }

  lemma ShiftedPlace(mid: Family, before: Family, generations: nat, k: nat)
    requires ShiftedDownTo(mid, before, 1, generations)
    ensures 1 < k <= generations ==> (k in mid <==> k - 1 in before) && (k in mid ==> mid[k] == before[k - 1])
    ensures k == 0 || k > generations ==> (k in mid <==> k in before) && (k in mid ==> mid[k] == before[k])
  {
    assert k in mid <==> Source(k, 1, generations) >= 0 && Source(k, 1, generations) in before;
  }

  /** A shifted family with the open root closed as the first holds one generation more. */
  lemma ShiftedHolds(
      mid: Family, before: Family, generations: nat, closed: seq<Generation>, current: Generation)
    requires Holds(before, generations, closed, current) && ShiftedDownTo(mid, before, 1, generations)
    ensures Holds(Renamed(mid - {1}, 0, 1)[0 := []], generations, closed + [current], [])
  {
    var more, after := closed + [current], Renamed(mid - {1}, 0, 1)[0 := []];
    ShiftedPlace(mid, before, generations, 0);
    forall k: nat
      ensures k in after <==> k <= Kept(generations, |more|)
      ensures 1 <= k <= Kept(generations, |more|) ==> after[k] == Flatten(more[|more| - k])
    {
      ShiftedPlace(mid, before, generations, k);
      if 1 < k <= |more| {
        assert more[|more| - k] == closed[|closed| - (k - 1)];
      }
    }
  }

  class LogFile {
    const generations: nat
    const bound: nat
    var files: Family
    var written: nat
    var rotations: nat
    ghost var closed: seq<Generation>
    ghost var current: Generation

    ghost predicate Valid()
      reads this
    {
      && Holds(files, generations, closed, current)
      && (forall g :: g in closed ==> ClosedSize(g, bound))
      && written == |files[0]| && rotations == |closed|
    }

    /** The writer loop has just looked at the size of the open generation. */
    ghost predicate BelowBound()
      reads this
    {
      written < Max(bound, 1)
    }

    constructor (generations: nat, bound: nat)
      ensures Valid() && BelowBound() && closed == [] && current == []
      ensures this.generations == generations && this.bound == bound
    {
      this.generations, this.bound := generations, bound;
      files, written, rotations := map[0 := []], 0, 0;
      closed, current := [], [];
    }

    /** Moves every closed file one place on, oldest first, dropping the last. */
    method ShiftClosed()
      modifies this`files
      ensures ShiftedDownTo(files, old(files), 1, generations)
    {
      var gen := generations;
      while gen > 1
        invariant if generations <= 1 then gen == generations && files == old(files)
                  else 1 <= gen <= generations && ShiftedDownTo(files, old(files), gen, generations)
      {
        ghost var before := files;
        files := files - {gen};
        files := Renamed(files, gen - 1, gen);
        ShiftOne(files, before, old(files), gen, generations);
        gen := gen - 1;
      }
    }

    /** Closes the open generation and starts an empty one. */
    method Rotate()
      requires Valid() && ClosedSize(current, bound)
      modifies this
      ensures Valid() && written == 0
      ensures closed == old(closed) + [old(current)] && current == []
    {
      rotations := rotations + 1;
      ShiftClosed();
      ghost var shifted := files;
      files := files - {1};
      files := Renamed(files, 0, 1);
      files := files[0 := []];
      ShiftedHolds(shifted, old(files), generations, closed, current);
      closed, current, written := closed + [current], [], 0;
    }

    /** Appends one rendered line to the open generation. */
    method Append(line: seq<byte>)
      requires Valid()
      modifies this`files, this`written, this`current
      ensures Valid() && current == old(current) + [line] && written == old(written) + |line|
    {
      files := files[0 := files[0] + line];
      written := written + |line|;
      current := current + [line];
      FlattenAppend(old(current), [line]);
      FlattenOne(line);
    }

    /** The main loop's delivery: the line that reaches the bound closes its generation. */
    method Deliver(line: seq<byte>)
      requires Valid() && BelowBound() && 1 <= |line| <= MAX_LINE
      modifies this
      ensures Valid() && BelowBound()
      ensures Stream(closed, current) == old(Stream(closed, current)) + [line]
      ensures closed == if old(written) + |line| >= bound then old(closed) + [old(current) + [line]] else old(closed)
    {
      Append(line);
      Associate(Flatten(closed), old(current), [line]);
      if written >= bound {
        Rotate();
        FlattenAppend(old(closed), [old(current) + [line]]);
        FlattenOne(old(current) + [line]);
      }
    }
  }
}
