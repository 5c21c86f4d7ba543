/** Travel-preference values used by planning and by ranking. */
module Preferences {

  datatype BudgetTier = Budget | MidRange | Premium | Luxury

  datatype Pace = Relaxed | Balanced | Packed
}
