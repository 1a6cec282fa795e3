/** The boxes handed across the C boundary. `Box::into_raw` gives the caller
    ownership of an object and `drop(Box::from_raw(p))` takes it back; the
    heap records which objects the caller currently owns, so that freeing an
    object twice, or reading one after it was freed, is a precondition the
    caller must meet. */
module Ownership {

  class Heap {
    /** Objects boxed for the caller and not yet freed. */
    var live: set<object>

    constructor ()
      ensures live == {}
    {
      live := {};
    }

    /** `Box::into_raw(Box::new(o))`: hand ownership of `o` to the caller. */
    method IntoRaw(o: object)
      requires o !in live
      modifies this
      ensures live == old(live) + {o}
    {
      live := live + {o};
    }

    /** `drop(Box::from_raw(o))`: take ownership back and release `o`. */
    method Drop(o: object)
      requires o in live
      modifies this
      ensures live == old(live) - {o}
    {
      live := live - {o};
    }
  }
}
