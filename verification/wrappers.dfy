/** The optional value used wherever the C# code returns or tests against null. */
module Wrappers {
  datatype Option<+T> = None | Some(value: T)
}
