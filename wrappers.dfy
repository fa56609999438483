/** Failure-compatible optional value, used for "no MIME type selected" and
    for parsing a clock display that is not of the `MM:SS` form. */
module Wrappers {
  datatype Option<+T> = None | Some(value: T)
}
