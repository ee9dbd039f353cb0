/** Optional arguments as the trainer receives them from Python: a value that
    may be `None`, and the truthiness tests (`if suffix:`, `x or default`)
    that the trainer applies to optional strings. */
module Options {

  datatype Option<+T> = None | Some(value: T)

  /** Python truthiness of an optional string: `None` and `""` are false. */
  predicate Truthy(s: Option<string>)
  {
    s.Some? && s.value != ""
  }

  /** Python's `s or default` for an optional string. */
  function OrElse(s: Option<string>, default: string): (r: string)
    ensures Truthy(s) ==> r == s.value
    ensures !Truthy(s) ==> r == default
    ensures r == "" ==> default == ""
  {
    if Truthy(s) then s.value else default
  }
}
