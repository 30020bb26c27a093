/** Optional values, for the places where the program returns None or an empty result,
    and the answer of a git command, which the model treats as an oracle. */
module Wrappers {

  datatype Option<+T> = None | Some(value: T)

  /** Python truthiness of an optional integer argument: None and 0 are false. */
  predicate Truthy(o: Option<int>)
  {
    o.Some? && o.value != 0
  }

  /** Python truthiness of an optional string: None and "" are false. */
  predicate Present(o: Option<string>)
  {
    o.Some? && o.value != ""
  }

  /** What a git command returned: its output split into lines, or a failure
      (CalledProcessError). */
  datatype Query = Failed | Output(lines: seq<string>)
}
