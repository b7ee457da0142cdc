/** The optional value used for absent payloads and failed parses. */
module Wrappers {
  datatype Option<+T> = None | Some(value: T)
}
