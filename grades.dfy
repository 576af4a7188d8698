/** The school grades the curriculum covers. */
module Grades {
  /** Grades 1 to 6: `TARGET_GRADES` of the extraction scripts and the
      range every other script checks. */
  predicate ValidGrade(g: int) { 1 <= g <= 6 }
}
