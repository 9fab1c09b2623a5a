/**
 * The helpers the core takes from the `utilities` module: identity tokens and
 * the ordering argument of the extremum scan.
 */
module Utilities {

  /** An identity token. The source uses random 128-bit UUIDs; here a token is a number. */
  type Uuid = nat

  /** `std::cmp::Ordering`, the direction argument of `find_extreme_coordinates`. */
  datatype Ordering = Less | Equal | Greater

  /**
   * The token generator behind `make_uuid`. Every token it hands out is new:
   * `issued` records what has been handed out, and no token is handed out twice.
   */
  class UuidSource {
    var next: nat
    ghost var issued: set<Uuid>

    ghost predicate Valid()
      reads this
    {
      forall id :: id in issued ==> id < next
    }

    constructor ()
      ensures Valid() && issued == {}
    {
      next := 0;
      issued := {};
    }

    /** `make_uuid`: a token that was never issued before. */
    method MakeUuid() returns (id: Uuid)
      requires Valid()
      modifies this
      ensures Valid()
      ensures id !in old(issued)
      ensures issued == old(issued) + {id}
    {
      id := next;
      next := next + 1;
      issued := issued + {id};
    }
  }
}
