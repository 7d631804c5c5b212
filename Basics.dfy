/** Small value types shared by every module of the model. */
module Basics {

  /** A value that may be absent: Python's `None` versus a present value. */
  datatype Option<+T> = None | Some(value: T)

  function Min(a: nat, b: nat): nat
  {
    if a <= b then a else b
  }

  /** Python truthiness of an optional string: present and non-empty. */
  predicate Truthy(o: Option<string>)
  {
    o.Some? && o.value != ""
  }
}
