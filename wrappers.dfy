/** The optional value used wherever the C# code returns `null` or a "try" result. */
module Wrappers {

  datatype Option<+T> = None | Some(value: T)
}
