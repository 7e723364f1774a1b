/** Option and the outcome of a JavaScript promise. */
module Wrappers {

  datatype Option<+T> = None | Some(value: T)

  /** How a promise ends: resolved with a value, rejected with a message, or never settled. */
  datatype Settled<+T> = Resolved(value: T) | Rejected(error: string) | Pending

  /** A value the model carries unchanged without looking inside it
      (a file handle, an import document, annotations, environment settings). */
  datatype Opaque = Opaque(repr: string)

  /** JavaScript truthiness of an optional string: null and "" are falsy. */
  predicate Truthy(s: Option<string>) {
    s.Some? && s.value != ""
  }

  /** `s || fallback` for an optional string. */
  function OrElse(s: Option<string>, fallback: string): (r: string)
    ensures Truthy(s) ==> r == s.value
    ensures !Truthy(s) ==> r == fallback
  {
    if Truthy(s) then s.value else fallback
  }

  /** Whether every promise of a `Promise.all` resolved. */
  predicate AllResolved<T>(rs: seq<Settled<T>>) {
    forall i :: 0 <= i < |rs| ==> rs[i].Resolved?
  }

  /** The values `Promise.all` resolves with, in order. */
  function Values<T>(rs: seq<Settled<T>>): (vs: seq<T>)
    requires AllResolved(rs)
    ensures |vs| == |rs| && forall i :: 0 <= i < |rs| ==> rs[i] == Resolved(vs[i])
  {
    seq(|rs|, i requires 0 <= i < |rs| && AllResolved(rs) => rs[i].value)
  }
}
