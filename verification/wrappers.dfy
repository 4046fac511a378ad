/** Optional values: the model's stand-in for JavaScript's `null`/`undefined`. */
module Wrappers {

  datatype Option<+T> = None | Some(value: T)

  /** JavaScript truthiness of an optional string: `null`, `undefined` and `""` are falsy. */
  predicate Truthy(o: Option<string>): (truthy: bool)
    ensures truthy <==> o != None && o != Some("")
  {
    o.Some? && o.value != ""
  }
}
