/**
 * The file kind whose changes are never counted: every line normalizes to the empty text and
 * no line is a variability change.
 */
module OtherFileDiff {
  /** normalize(line, pos) */
  function Normalize(line: string, pos: nat): string {
    ""
  }

  /** isVariabilityChange(clean, pos) */
  predicate IsVarChange(clean: string, pos: nat) {
    false
  }
}
