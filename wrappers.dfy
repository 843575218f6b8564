/** Option and the truthiness test the JavaScript sources apply to optional request fields. */
module Wrappers {

  datatype Option<+T> = None | Some(value: T)

  /** `x || fallback` for an optional string: a missing or empty value is falsy. */
  predicate Truthy(s: Option<string>) {
    s.Some? && s.value != ""
  }

  /** `updates.f || stored` where the stored column is NOT NULL. */
  function OrElse(supplied: Option<string>, stored: string): (r: string)
    ensures Truthy(supplied) ==> r == supplied.value
    ensures !Truthy(supplied) ==> r == stored
  {
    if Truthy(supplied) then supplied.value else stored
  }

  /** `updates.f || stored` where the stored column may be NULL. */
  function OrElseOpt(supplied: Option<string>, stored: Option<string>): (r: Option<string>)
    ensures Truthy(supplied) ==> r == supplied
    ensures !Truthy(supplied) ==> r == stored
  {
    if Truthy(supplied) then supplied else stored
  }

  /** `x || ''` */
  function OrEmpty(s: Option<string>): (r: string)
    ensures Truthy(s) ==> r == s.value
    ensures !Truthy(s) ==> r == ""
  {
    if s.Some? then s.value else ""
  }
}
