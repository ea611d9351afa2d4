/** Rule entries and the two rule tables. */
module Rules {
  import opened Patterns

  /** One line-shape constraint: a regular expression and the message of a
      line it rejects. */
  datatype Requirement = Requirement(pattern: Pattern, message: string)

  /** A rule catalogue: single-pattern rules and block rules, keyed by identity. */
  datatype Catalogue = Catalogue(
    lineRequirements: map<string, Requirement>,
    blockLineRequirements: map<string, seq<Requirement>>)

  /** Every block list has at least one entry, so the block cursor's index 0 exists. */
  predicate BlocksNonEmpty(c: Catalogue) {
    forall key :: key in c.blockLineRequirements ==> |c.blockLineRequirements[key]| > 0
  }
}
