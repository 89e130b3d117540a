/** Owners of blocks under any sequence of allocations, moves, assignments, growths and destructions:
    what the contracts of `OwnedAllocation` add up to. */
module Ownership {
  import opened Words
  import opened Allocation

  /** A block is named by the position of the allocation that handed it out. */
  datatype Owner = Owner(backend: nat, block: Option<nat>, layout: Layout)

  datatype Issue = Issue(backend: nat, layout: Layout)

  datatype Return = Return(backend: nat, block: nat, layout: Layout)

  /** The live owners by the variable that holds each, every allocation ever made, the blocks that are
      out and every deallocation call ever made. */
  datatype World = World(owners: map<nat, Owner>, issued: seq<Issue>, out: set<nat>, returned: seq<Return>)

  /** `Grow` is what a builder does to its block: a larger one is allocated, assigned over the old one
      by move, and the emptied temporary is destroyed. `granted` is the backend's answer. */
  datatype Op =
    | Allocate(i: nat, backend: nat, layout: Layout, granted: bool)
    | MoveConstruct(i: nat, from: nat)
    | Assign(i: nat, from: nat)
    | Grow(i: nat, temp: nat, layout: Layout, granted: bool)
    | Destroy(i: nat)

  const START: World := World(map[], [], {}, [])

  function Emptied(o: Owner): Owner {
    Owner(o.backend, None, NO_LAYOUT)
  }

  /** A new owner in the free variable `i`; no owner when the backend refuses. */
  function AllocateStep(w: World, i: nat, backend: nat, layout: Layout, granted: bool): World {
    if i in w.owners then w
    else if layout.size == 0 then w.(owners := w.owners[i := Owner(backend, None, layout)])
    else if !granted then w
    else
      var m := |w.issued|;
      World(w.owners[i := Owner(backend, Some(m), layout)], w.issued + [Issue(backend, layout)],
            w.out + {m}, w.returned)
  }

  /** The deallocation call an owner makes for what it holds: its own backend, block and layout. */
  function Released(w: World, o: Owner): World {
    if o.block.None? then w
    else w.(out := w.out - {o.block.value},
            returned := w.returned + [Return(o.backend, o.block.value, o.layout)])
  }

  function MoveStep(w: World, i: nat, from: nat): World {
    if i in w.owners || from !in w.owners then w
    else w.(owners := w.owners[i := w.owners[from]][from := Emptied(w.owners[from])])
  }

  function AssignStep(w: World, i: nat, from: nat): World {
    if i !in w.owners || from !in w.owners || i == from then w
    else
      var w' := Released(w, w.owners[i]);
      w'.(owners := w.owners[i := w.owners[from]][from := Emptied(w.owners[from])])
  }

  function DestroyStep(w: World, i: nat): World {
    if i !in w.owners then w
    else
      var w' := Released(w, w.owners[i]);
      w'.(owners := w.owners - {i})
  }

  function GrowStep(w: World, i: nat, temp: nat, layout: Layout, granted: bool): World {
    if i !in w.owners || temp in w.owners then w
    else
      var w' := AllocateStep(w, temp, w.owners[i].backend, layout, granted);
      DestroyStep(AssignStep(w', i, temp), temp)
  }

  function Apply(w: World, op: Op): World {
    match op
    case Allocate(i, backend, layout, granted) => AllocateStep(w, i, backend, layout, granted)
    case MoveConstruct(i, from) => MoveStep(w, i, from)
    case Assign(i, from) => AssignStep(w, i, from)
    case Grow(i, temp, layout, granted) => GrowStep(w, i, temp, layout, granted)
    case Destroy(i) => DestroyStep(w, i)
  }

  function Run(w: World, ops: seq<Op>): World
    decreases |ops|
  {
    if ops == [] then w else Run(Apply(w, ops[0]), ops[1..])
  }

  // ----- the invariant -----

  ghost predicate Owns(w: World, o: Owner) {
    match o.block
    case None => o.layout.size == 0
    case Some(m) => m in w.out && m < |w.issued| && w.issued[m] == Issue(o.backend, o.layout) && o.layout.size > 0
  }

  ghost predicate HeldOnce(w: World) {
    forall i, j :: i in w.owners && j in w.owners && i != j && w.owners[i].block.Some? ==>
      w.owners[i].block != w.owners[j].block
  }

  ghost predicate Held(w: World, m: nat) {
    exists i :: i in w.owners && w.owners[i].block == Some(m)
  }

  ghost predicate Returned(w: World, m: nat) {
    exists k :: 0 <= k < |w.returned| && w.returned[k].block == m
  }

  /** Every call returned a block that was out, once, to its own backend, with its own layout. */
  ghost predicate ReturnsAreLawful(w: World) {
    && (forall k :: 0 <= k < |w.returned| ==>
          && w.returned[k].block < |w.issued| && w.returned[k].block !in w.out
          && w.issued[w.returned[k].block] == Issue(w.returned[k].backend, w.returned[k].layout))
    && forall j, k :: 0 <= j < k < |w.returned| ==> w.returned[j].block != w.returned[k].block
  }

  ghost predicate Conserved(w: World) {
    && (forall i :: i in w.owners ==> Owns(w, w.owners[i])) && HeldOnce(w)
    && (forall m :: m in w.out ==> Held(w, m))
    && ReturnsAreLawful(w)
    && forall m :: 0 <= m < |w.issued| ==> m in w.out || Returned(w, m)
  }

  lemma AllocateOwners(w: World, i: nat, backend: nat, layout: Layout, granted: bool)
    requires Conserved(w)
    ensures var w' := AllocateStep(w, i, backend, layout, granted);
            (forall k :: k in w'.owners ==> Owns(w', w'.owners[k])) && HeldOnce(w') && ReturnsAreLawful(w')
  {
    var w' := AllocateStep(w, i, backend, layout, granted);
    forall k | k in w'.owners ensures Owns(w', w'.owners[k]) {
      if k in w.owners { assert Owns(w, w.owners[k]); }
    }
  }

  lemma AllocateHeld(w: World, i: nat, backend: nat, layout: Layout, granted: bool)
    requires Conserved(w)
    ensures var w' := AllocateStep(w, i, backend, layout, granted);
            (forall m :: m in w'.out ==> Held(w', m))
            && forall m :: 0 <= m < |w'.issued| ==> m in w'.out || Returned(w', m)
  {
    var w' := AllocateStep(w, i, backend, layout, granted);
    forall m | m in w'.out ensures Held(w', m) {
      if m in w.out {
        var k :| k in w.owners && w.owners[k].block == Some(m);
        assert w'.owners[k].block == Some(m);
      } else {
        assert w'.owners[i].block == Some(m);
      }
    }
    forall m | 0 <= m < |w'.issued| ensures m in w'.out || Returned(w', m) {
      if m < |w.issued| && m !in w.out { assert Returned(w, m); }
    }
  }

  lemma AllocateKeeps(w: World, i: nat, backend: nat, layout: Layout, granted: bool)
    requires Conserved(w)
    ensures Conserved(AllocateStep(w, i, backend, layout, granted))
  {
    AllocateOwners(w, i, backend, layout, granted);
    AllocateHeld(w, i, backend, layout, granted);
  }

  lemma ReleasedIsLawful(w: World, i: nat)
    requires Conserved(w) && i in w.owners
    ensures ReturnsAreLawful(Released(w, w.owners[i]))
    ensures var w' := Released(w, w.owners[i]);
            forall m :: 0 <= m < |w'.issued| ==> m in w'.out || Returned(w', m)
  {
    var w' := Released(w, w.owners[i]);
    assert Owns(w, w.owners[i]);
    forall m | 0 <= m < |w'.issued| ensures m in w'.out || Returned(w', m) {
      if m !in w'.out {
        if m in w.out {
          assert w'.returned[|w.returned|].block == m;
        } else {
          var k :| 0 <= k < |w.returned| && w.returned[k].block == m;
          assert w'.returned[k].block == m;
        }
      }
    }
  }

  /** With owner `i` released, its block is held by nobody else: the others are as before. */
  lemma ReleasedOthers(w: World, i: nat)
    requires Conserved(w) && i in w.owners
    ensures var w' := Released(w, w.owners[i]);
            && (forall k :: k in w.owners && k != i ==> Owns(w', w.owners[k]))
            && forall m :: m in w'.out ==> exists k :: k in w.owners && k != i && w.owners[k].block == Some(m)
  {
    var w' := Released(w, w.owners[i]);
    forall k | k in w.owners && k != i ensures Owns(w', w.owners[k]) {
      assert Owns(w, w.owners[k]);
    }
    forall m | m in w'.out ensures exists k :: k in w.owners && k != i && w.owners[k].block == Some(m) {
      assert Held(w, m);
    }
  }

  lemma SameBooks(w: World, w': World)
    requires w'.issued == w.issued && w'.out == w.out && w'.returned == w.returned
    requires ReturnsAreLawful(w) && forall m :: 0 <= m < |w.issued| ==> m in w.out || Returned(w, m)
    ensures ReturnsAreLawful(w') && forall m :: 0 <= m < |w'.issued| ==> m in w'.out || Returned(w', m)
  {
    forall m | 0 <= m < |w'.issued| ensures m in w'.out || Returned(w', m) {
      if m !in w.out { assert Returned(w, m); }
    }
  }

  lemma DestroyKeeps(w: World, i: nat)
    requires Conserved(w)
    ensures Conserved(DestroyStep(w, i))
  {
    if i in w.owners {
      var w', freed := DestroyStep(w, i), Released(w, w.owners[i]);
      ReleasedIsLawful(w, i);
      ReleasedOthers(w, i);
      SameBooks(freed, w');
      forall k | k in w'.owners ensures Owns(w', w'.owners[k]) {
        assert Owns(freed, w.owners[k]);
      }
      forall m | m in w'.out ensures Held(w', m) {
        var k :| k in w.owners && k != i && w.owners[k].block == Some(m);
        assert w'.owners[k].block == Some(m);
      }
    }
  }

  /** The holdings after `i`, holding nothing that is out, takes over what `from` holds. */
  lemma TakeOver(w: World, w': World, i: nat, from: nat)
    requires from in w.owners && i != from
    requires w'.owners == w.owners[i := w.owners[from]][from := Emptied(w.owners[from])]
    requires w'.issued == w.issued && HeldOnce(w)
    requires forall k :: k in w.owners && k != i ==> Owns(w', w.owners[k])
    requires forall m :: m in w'.out ==> exists k :: k in w.owners && k != i && w.owners[k].block == Some(m)
    ensures (forall k :: k in w'.owners ==> Owns(w', w'.owners[k])) && HeldOnce(w')
    ensures forall m :: m in w'.out ==> Held(w', m)
  {
    forall m | m in w'.out ensures Held(w', m) {
      var k :| k in w.owners && k != i && w.owners[k].block == Some(m);
      assert w'.owners[if k == from then i else k].block == Some(m);
    }
  }

  lemma AssignKeeps(w: World, i: nat, from: nat)
    requires Conserved(w)
    ensures Conserved(AssignStep(w, i, from))
  {
    if i in w.owners && from in w.owners && i != from {
      var w', freed := AssignStep(w, i, from), Released(w, w.owners[i]);
      ReleasedIsLawful(w, i);
      ReleasedOthers(w, i);
      SameBooks(freed, w');
      forall k | k in w.owners && k != i ensures Owns(w', w.owners[k]) {
        assert Owns(freed, w.owners[k]);
      }
      TakeOver(w, w', i, from);
    }
  }

  lemma MoveKeeps(w: World, i: nat, from: nat)
    requires Conserved(w)
    ensures Conserved(MoveStep(w, i, from))
  {
    if i !in w.owners && from in w.owners {
      var w' := MoveStep(w, i, from);
      SameBooks(w, w');
      forall k | k in w.owners ensures Owns(w', w.owners[k]) {
        assert Owns(w, w.owners[k]);
      }
      forall m | m in w'.out ensures exists k :: k in w.owners && k != i && w.owners[k].block == Some(m) {
        assert Held(w, m);
      }
      TakeOver(w, w', i, from);
    }
  }

  lemma ApplyKeeps(w: World, op: Op)
    requires Conserved(w)
    ensures Conserved(Apply(w, op))
  {
    match op
    case Allocate(i, backend, layout, granted) => AllocateKeeps(w, i, backend, layout, granted);
    case MoveConstruct(i, from) => MoveKeeps(w, i, from);
    case Assign(i, from) => AssignKeeps(w, i, from);
    case Grow(i, temp, layout, granted) =>
      if i in w.owners && temp !in w.owners {
        var backend := w.owners[i].backend;
        AllocateKeeps(w, temp, backend, layout, granted);
        AssignKeeps(AllocateStep(w, temp, backend, layout, granted), i, temp);
        DestroyKeeps(AssignStep(AllocateStep(w, temp, backend, layout, granted), i, temp), temp);
      }
    case Destroy(i) => DestroyKeeps(w, i);
  }

  /** After any sequence of operations the blocks out are exactly those live owners hold, each held by
      one owner, and every deallocation call so far returned a block once, to its own backend, with the
      layout it was asked for. */
  lemma {:induction false} RunConserves(w: World, ops: seq<Op>)
    requires Conserved(w)
    ensures Conserved(Run(w, ops))
    decreases |ops|
  {
    if ops != [] {
      ApplyKeeps(w, ops[0]);
      RunConserves(Apply(w, ops[0]), ops[1..]);
    }
  }

  /** From the start: once every owner is gone, every block ever handed out has been returned, and
      nothing is out. */
  lemma NothingLeaks(ops: seq<Op>)
    ensures var w := Run(START, ops);
            Conserved(w) && (w.owners == map[] ==> w.out == {} && forall m :: 0 <= m < |w.issued| ==> Returned(w, m))
  {
    RunConserves(START, ops);
    var w := Run(START, ops);
    assert w.owners == map[] ==> forall m :: !Held(w, m);
    assert w.owners == map[] ==> w.out == {};
  }
}
