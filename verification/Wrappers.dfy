/** What several modules share: a value that may be missing, and pieces put together. */
module Wrappers {
  datatype Option<+T> = None | Some(value: T)

  function Concat<T>(pieces: seq<seq<T>>): seq<T> {
    if pieces == [] then [] else Concat(pieces[..|pieces| - 1]) + pieces[|pieces| - 1]
  }
}
