/** The optional-value datatype used for the checker's `error?` field and for
    pattern-match results. */
module Wrappers {

  datatype Option<+T> = None | Some(value: T)
}
