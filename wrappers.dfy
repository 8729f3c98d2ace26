/** The null reference of the C# source, made explicit. */
module Wrappers {
  datatype Option<+T> = None | Some(value: T)
}
