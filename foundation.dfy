/** What the app receives from Foundation's `NSPredicate`. */
module Foundation {

  import Models

  /** `predicateFormat` and `evaluate(with:)` of `NSPredicate` over predicates
      of type `P`. Both belong to Foundation; the app only calls them, so they
      are left uninterpreted. */
  datatype PredicateRuntime<!P> = PredicateRuntime(
    predicateFormat: P -> string,
    evaluate: (P, Models.PersonDict) -> bool)
}
