/** de.glmtk.common.Pattern, as far as the core needs it. */
module Patterns {
  /** A pattern is its sequence of position-kind symbols (word, skipped,
      continuation-skipped ...); what each symbol means is decided by the
      collaborators that apply the pattern. */
  datatype Pattern = Pattern(elems: seq<char>) {
    /** pattern.size() */
    function Size(): nat { |elems| }
    /** pattern.toString(): the canonical encoding, also the file name. */
    function Name(): string { elems }
  }
}
