/** JavaScript value conventions the services and controllers rely on:
    `null`, `undefined`, settled promises, and the truthiness tests behind
    `if (data.x)` and `data.x || null`. */
module Js {

  /** A value that may be `null`: the source's `T | null`. */
  datatype Option<+T> = None | Some(value: T)

  /** An optional property (`x?: T`): absent (`undefined`) or present. */
  datatype Opt<+T> = Undefined | Defined(value: T)

  /** A settled promise: the value it resolved to, or the message of the `Error` it rejected with. */
  datatype Result<+T> = Ok(value: T) | Err(message: string)

  /** `if (s)` on a string: only the empty string is falsy. */
  predicate TruthyString(s: string) {
    s != ""
  }

  /** `if (x)` on a number: only zero is falsy (NaN is outside the model). */
  predicate TruthyNumber(x: real) {
    x != 0.0
  }

  /** `if (data.x)` on an optional string property. */
  predicate SuppliedString(o: Opt<string>) {
    o.Defined? && TruthyString(o.value)
  }

  /** `if (data.x)` on an optional number property. */
  predicate SuppliedNumber(o: Opt<real>) {
    o.Defined? && TruthyNumber(o.value)
  }

  /** `data.x || null` on an optional string property. */
  function StringOrNull(o: Opt<string>): (r: Option<string>)
    ensures r.Some? <==> SuppliedString(o)
    ensures r.Some? ==> r.value == o.value
  {
    if SuppliedString(o) then Some(o.value) else None
  }

  /** `data.x || null` on an optional number property. */
  function NumberOrNull(o: Opt<real>): (r: Option<real>)
    ensures r.Some? <==> SuppliedNumber(o)
    ensures r.Some? ==> r.value == o.value
  {
    if SuppliedNumber(o) then Some(o.value) else None
  }
}
