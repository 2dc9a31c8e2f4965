/**
 Identifier allocation (lib/sequential_set.hpp): identifiers are handed out in ascending order, wrap
 to 0 after the largest one, and one in use is never handed out.
 */
module SequentialSet {

  /** The largest identifier; the source relies on a signed counter going negative past it. */
  const MAX_ID: nat := 0x7FFF_FFFF

  function Following(c: nat): (r: nat)
    requires c <= MAX_ID
    ensures r <= MAX_ID
  {
    if c == MAX_ID then 0 else c + 1
  }

  /** How many increments, with wrap-around, lead from c to x; a full turn back to c itself. */
  function Distance(c: nat, x: nat): (d: nat)
    requires c <= MAX_ID && x <= MAX_ID
    ensures 1 <= d <= MAX_ID + 1
  {
    if c < x then x - c else x + MAX_ID + 1 - c
  }

  /** r is the free identifier that the counter meets first after c. */
  ghost predicate IsNextFree(used: set<nat>, c: nat, r: nat) {
    && c <= MAX_ID && r <= MAX_ID && r !in used
    && forall x: nat | x <= MAX_ID && x !in used :: Distance(c, r) <= Distance(c, x)
  }

  class SequentialSet {
    var counter: nat
    var used: set<nat>

    ghost predicate Valid()
      reads this
    {
      counter <= MAX_ID && forall x | x in used :: x <= MAX_ID
    }

    constructor ()
      ensures Valid() && used == {} && counter == 0
    {
      counter, used := 0, {};
    }

    /** Assumes, as the source does, that not every identifier is taken: otherwise it would not return. */
    method Take() returns (id: nat)
      requires Valid() && exists x: nat :: x <= MAX_ID && x !in used
      modifies this
      ensures Valid() && IsNextFree(old(used), old(counter), id)
      ensures counter == id && used == old(used) + {id}
    {
      ghost var free: nat :| free <= MAX_ID && free !in used;
      counter := Following(counter);
      while counter in used
        invariant counter <= MAX_ID && used == old(used)
        invariant forall x: nat | x <= MAX_ID && x !in used :: Distance(old(counter), counter) <= Distance(old(counter), x)
        decreases Distance(old(counter), free) - Distance(old(counter), counter)
      {
        assert counter != free;
        counter := Following(counter);
      }
      used := used + {counter};
      id := counter;
    }

    method Replace(id: nat)
      requires Valid()
      modifies `used
      ensures Valid() && used == old(used) - {id}
    {
      used := used - {id};
    }

    method Contains(id: nat) returns (b: bool)
      ensures b <==> id in used
    {
      b := id in used;
    }

    method Clear()
      requires Valid()
      modifies `used
      ensures Valid() && used == {}
    {
      used := {};
    }

    method Empty() returns (b: bool)
      ensures b <==> used == {}
    {
      b := used == {};
    }
  }

  /** Identifiers are not reused too quickly: one that was handed out last and given back is handed out
      again only when all the others are in use. */
  lemma NotReusedQuickly(used: set<nat>, id: nat, r: nat)
    requires IsNextFree(used, id, r)
    ensures r == id ==> forall x: nat | x <= MAX_ID && x != id :: x in used
  {
    if r == id {
      assert forall x: nat | x <= MAX_ID && x != id :: Distance(id, x) < Distance(id, id);
    }
  }

  /** Successive takes keep ascending until the counter wraps: of two identifiers free all along, the one
      ahead of the counter is handed out first. */
  lemma TakenInTurn(used: set<nat>, c: nat, r: nat, x: nat)
    requires IsNextFree(used, c, r) && x <= MAX_ID && x !in used && x != r
    ensures Distance(c, x) == Distance(c, r) + Distance(r, x)
  {
    assert Distance(c, r) <= Distance(c, x);
  }
}
