/** Shared value types: optional values, results, bytes, identifiers and
    timestamps, and JavaScript truthiness of request fields. */
module Common {

  datatype Option<T> = None | Some(value: T)

  /** A computation that either yields a value or fails with a message. */
  datatype Result<T> = Ok(value: T) | Err(error: string)

  newtype byte = x: int | 0 <= x < 256

  /** Row identifiers. The database draws them at random; the model hands
      them out from a counter, which is all the handlers rely on: they are
      fresh. */
  type Id = nat

  /** Timestamps in milliseconds since the epoch. */
  type Time = int

  const HourMs: int := 3_600_000

  /** `!field` in a handler: a string field is falsy when it is absent
      (undefined or null) or the empty string. */
  predicate Truthy(v: Option<string>) {
    v.Some? && v.value != ""
  }

  /** A numeric field is falsy when it is absent or zero. */
  predicate NumberTruthy(v: Option<int>) {
    v.Some? && v.value != 0
  }

  /** `field || null` for a string field: a falsy value becomes null. */
  function OrNull(v: Option<string>): (r: Option<string>)
    ensures r.Some? <==> Truthy(v)
    ensures r.Some? ==> r == v
  {
    if Truthy(v) then v else None
  }

  /** `field || null` for a numeric field: absent and zero both become null. */
  function NumberOrNull(v: Option<int>): (r: Option<int>)
    ensures r.Some? <==> NumberTruthy(v)
    ensures r.Some? ==> r == v && r.value != 0
  {
    if NumberTruthy(v) then v else None
  }
}
