/** Checklist boxes: ` `, `x` and `-`, and how many one call may close. */
module Marks {
  datatype Mark = Open | Done | NotNeeded

  /** Boxes one tick may close before the walk's plan is written. */
  const TICK_AT_ONCE: nat := 6
}
