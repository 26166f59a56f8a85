/**
 * One way of a set: the metadata of a cache line (src/blocks/block.py).
 * A `Block` is a frozen value; every change builds a new one through `CopyWith`.
 */
module Blocks {
  import opened Wrappers

  datatype Block = Block(
    tag: Option<nat>,        // value of the address's tag field, or None for an empty way
    address: Option<nat>,    // the address that last filled this way
    isDirty: bool,
    isValid: bool,
    sequenceNumber: int      // ordering key for replacement
  )

  /** `Block()`: the empty way every set starts with. */
  function DefaultBlock(): (b: Block)
    ensures b.tag == None && b.address == None
    ensures !b.isDirty && !b.isValid && b.sequenceNumber == 0
  {
    Block(None, None, false, false, 0)
  }

  /**
   * The keyword arguments of `copy_with`: `Some(v)` names a field and its new value,
   * `None` leaves the field out of the call.
   */
  datatype Overrides = Overrides(
    tag: Option<Option<nat>>,
    address: Option<Option<nat>>,
    isDirty: Option<bool>,
    isValid: Option<bool>,
    sequenceNumber: Option<int>
  )

  const NoOverrides: Overrides := Overrides(None, None, None, None, None)

  function Pick<T>(given: Option<T>, current: T): T {
    match given
    case Some(v) => v
    case None => current
  }

  /** `copy_with(**kwargs)`, i.e. `dataclasses.replace`. */
  function CopyWith(b: Block, o: Overrides): (r: Block)
    ensures o.tag.Some? ==> r.tag == o.tag.value
    ensures o.tag.None? ==> r.tag == b.tag
    ensures o.address.Some? ==> r.address == o.address.value
    ensures o.address.None? ==> r.address == b.address
    ensures o.isDirty.Some? ==> r.isDirty == o.isDirty.value
    ensures o.isDirty.None? ==> r.isDirty == b.isDirty
    ensures o.isValid.Some? ==> r.isValid == o.isValid.value
    ensures o.isValid.None? ==> r.isValid == b.isValid
    ensures o.sequenceNumber.Some? ==> r.sequenceNumber == o.sequenceNumber.value
    ensures o.sequenceNumber.None? ==> r.sequenceNumber == b.sequenceNumber
  {
    Block(Pick(o.tag, b.tag), Pick(o.address, b.address), Pick(o.isDirty, b.isDirty),
          Pick(o.isValid, b.isValid), Pick(o.sequenceNumber, b.sequenceNumber))
  }

  /** `copy_with()` with no keyword arguments gives back an equal block. */
  lemma CopyWithNothing(b: Block)
    ensures CopyWith(b, NoOverrides) == b
  {
  }

  /** Applying the same overrides twice is the same as applying them once. */
  lemma CopyWithIdempotent(b: Block, o: Overrides)
    ensures CopyWith(CopyWith(b, o), o) == CopyWith(b, o)
  {
  }
}
