/** Absent values. The C# code passes references that may be null; here such a
    reference is an `Option`, so "no value" is an explicit case. */
module Wrappers {

  datatype Option<+T> = None | Some(value: T)
}
