/** What the execution analysis decides about an opportunity. */
module Decisions {
  datatype Decision = Execute | Review | Skip
}
