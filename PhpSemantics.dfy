/**
 * The parts of PHP's value semantics that the access-control code depends on.
 */
module PhpSemantics {
  import opened Wrappers

  /** A string in a boolean context: PHP treats exactly "" and "0" as false. */
  predicate Truthy(s: string) {
    s != "" && s != "0"
  }

  /** A nullable string in a boolean context: `null` is false. */
  predicate TruthyOpt(o: Option<string>) {
    o.Some? && Truthy(o.value)
  }

  /** The characters PHP's `trim` removes by default: space, \t, \n, \r, \0 and \x0B. */
  const TrimmedChars: set<char> := {' ', '\t', '\n', '\r', '\0', '\U{B}'}

  /**
   * Laravel's `required` rule rejects a string that is empty once trimmed.
   */
  predicate IsBlank(s: string) {
    forall i :: 0 <= i < |s| ==> s[i] in TrimmedChars
  }

  /** A string of two or more characters, such as a generated token or a hash, is truthy. */
  lemma LongStringIsTruthy(s: string)
    requires |s| >= 2
    ensures Truthy(s)
  {
  }
}
