/** The lab's command-line arguments: which data groups a condensation uses. */
module LabCommands {
  /** `CondensationGroup`: which dumps a condensation reads. */
  datatype CondensationGroup = Filtered | Immediate | All

  /** `use_filtered`. */
  predicate UseFiltered(group: CondensationGroup) {
    match group
    case Filtered => true
    case All => true
    case Immediate => false
  }

  /** `use_immediate`. */
  predicate UseImmediate(group: CondensationGroup) {
    match group
    case Immediate => true
    case All => true
    case Filtered => false
  }

  /** Every group uses something, and only `All` uses both. */
  lemma GroupFlags(group: CondensationGroup)
    ensures UseFiltered(group) || UseImmediate(group)
    ensures UseFiltered(group) && UseImmediate(group) <==> group == All
  {
  }
}
