/**
 * The three comparisons the package borrows from the `semver` library. Their
 * semantics are not modelled: a comparator is passed in as a value, so every
 * result below holds for every implementation of them in which `satisfies`
 * answers without throwing.
 */
module Semver {
  import opened Wrappers

  /**
   * satisfies(version, range): semver.satisfies, which answers false on a
   *   version or range it cannot parse.
   * gtr(version, range): semver.gtr, None when it throws on an unparseable
   *   version or range.
   * gt(a, b): semver.gt, None when it throws on an unparseable version.
   */
  datatype Comparator = Comparator(
    satisfies: (string, string) -> bool,
    gtr: (string, string) -> Option<bool>,
    gt: (string, string) -> Option<bool>)
}
