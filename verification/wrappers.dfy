/** Optional values: stands in for C# `null` references and for reads that
    throw on an empty list. */
module Wrappers {

  datatype Option<+T> = None | Some(value: T)
}
