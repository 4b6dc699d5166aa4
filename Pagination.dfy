/**
 * Chapter navigation of src/components/BookPage.jsx (`handlePrevious`,
 * `handleNext`): a bounded index over a list that only grows.
 */
module Pagination {

  /** The index is 0 (nothing to show yet) or names a record of the list. */
  predicate IndexOk(index: nat, length: nat)
  {
    index == 0 || index < length
  }

  /** `handlePrevious`: step back one chapter, a no-op at the first one. */
  function Previous(index: nat): (r: nat)
    ensures r <= index && index - r <= 1
    ensures r == index <==> index == 0
    ensures forall length: nat :: IndexOk(index, length) ==> IndexOk(r, length)
  {
    if index > 0 then index - 1 else index
  }

  /**
   * `handleNext`: step forward one chapter, a no-op at the last one and on
   * an empty list (`index < length - 1` is false for length 0).
   */
  function Next(index: nat, length: nat): (r: nat)
    ensures r == index || r == index + 1
    ensures r == index + 1 <==> index + 1 < length
    ensures IndexOk(index, length) ==> IndexOk(r, length)
    ensures index < length ==> r < length
  {
    if index < length - 1 then index + 1 else index
  }
}
