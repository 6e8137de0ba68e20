/** Optional values, used for nil handles and missing map entries, and the choice of a set element. */
module Wrappers {

  datatype Option<+T> = None | Some(value: T)

  // Some element of a set, as ranging over a map hands out its keys.
  method SomeOf<T(==)>(s: set<T>) returns (x: T)
    requires s != {}
    ensures x in s
  {
    x :| x in s;
  }
}
