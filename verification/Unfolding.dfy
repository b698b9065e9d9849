/** Definitions that a proof unfolds only where it asks for them. */
module Unfolding {
  /** What is unfolded together: plans and projections, row attributes, whole tables, steps of a run, printed text. */
  datatype Layer = PlanLayer | AttributeLayer | TableLayer | RunLayer | TextLayer

  /**
   Always true.  A relation is stated under a quantifier that this predicate triggers, so that
   a proof that only passes the relation on does not look inside it.
   */
  predicate Unfolded(layer: Layer, k: int) {
    true
  }
}
