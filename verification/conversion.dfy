/** Packaging conversion: how many base units one unit, bag, box or pallet holds.
    This is the single reference both the invoice builder and the product form are
    proved to agree with. */
module Conversion {
  import opened Basics
  import opened Types

  /** Base units in one `u` of a product packaged as `pk`. Without packaging, and for
      any unit type other than bag, box or pallet, the factor is 1. */
  function Factor(pk: Option<PackagingConfig>, u: UnitType): (r: int)
    ensures pk.None? ==> r == 1
    ensures u.Unit? || u.Other? ==> r == 1
    ensures pk.Some? && u.Bag? ==> r == pk.value.unitsPerBag
  {
    match pk
    case None => 1
    case Some(p) =>
      match u
      case Bag => p.unitsPerBag
      case Box => p.unitsPerBag * p.bagsPerBox
      case Pallet => p.unitsPerBag * p.bagsPerBox * p.boxesPerPallet
      case _ => 1
  }

  /** Each level multiplies the one below: a box is `bagsPerBox` bags, a pallet
      `boxesPerPallet` boxes. */
  lemma FactorNests(p: PackagingConfig)
    ensures Factor(Some(p), Box) == Factor(Some(p), Bag) * p.bagsPerBox
    ensures Factor(Some(p), Pallet) == Factor(Some(p), Box) * p.boxesPerPallet
  {
  }

  /** All three multipliers are at least 1. */
  predicate PositivePackaging(pk: Option<PackagingConfig>) {
    pk.Some? ==> pk.value.unitsPerBag >= 1 && pk.value.bagsPerBox >= 1 && pk.value.boxesPerPallet >= 1
  }

  /** With positive multipliers each packaging level holds at least as many base units
      as the one below it, and every factor is at least 1. */
  lemma FactorMonotone(pk: Option<PackagingConfig>)
    requires PositivePackaging(pk)
    ensures 1 == Factor(pk, Unit) <= Factor(pk, Bag) <= Factor(pk, Box) <= Factor(pk, Pallet)
  {
    if pk.Some? {
      var p := pk.value;
      MultiplyAtLeast(p.unitsPerBag, p.bagsPerBox);
      MultiplyAtLeast(p.unitsPerBag * p.bagsPerBox, p.boxesPerPallet);
    }
  }

  /** Multiplying a positive number by at least 1 does not make it smaller. */
  lemma MultiplyAtLeast(a: int, b: int)
    requires a >= 1 && b >= 1
    ensures a * b >= a
  {
    assert a * b == a + a * (b - 1);
  }
}
