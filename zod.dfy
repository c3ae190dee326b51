/** The zod schema combinators the controllers use, each read as a partial
    map from a property of the request body to the value the handler receives;
    `None` is a `ZodError`. zod's e-mail pattern and its date coercion are
    parameters: `isEmail` and `coerce`. */
module Zod {
  import opened Js
  import opened Json
  import opened Models

  /** `z.string()` */
  function Str(v: Opt<JsonValue>): (r: Option<string>)
    ensures r.Some? <==> v.Defined? && v.value.JString?
    ensures r.Some? ==> v.value == JString(r.value)
  {
    if v.Defined? && v.value.JString? then Some(v.value.s) else None
  }

  /** A string's JavaScript `length`: its UTF-16 code units, one for a
      character of the Basic Multilingual Plane and two (a surrogate pair)
      for a character at or above U+10000. zod's `.min` and `.length`
      measure this. */
  function Utf16Length(s: string): (n: nat)
    ensures |s| <= n <= 2 * |s|
    ensures (forall i :: 0 <= i < |s| ==> s[i] < '\U{10000}') ==> n == |s|
    ensures (forall i :: 0 <= i < |s| ==> '\U{10000}' <= s[i]) ==> n == 2 * |s|
  {
    if s == [] then 0 else (if s[0] < '\U{10000}' then 1 else 2) + Utf16Length(s[1..])
  }

  /** `z.string().min(min)` */
  function StrMin(v: Opt<JsonValue>, min: nat): (r: Option<string>)
    ensures r.Some? <==> v.Defined? && v.value.JString? && min <= Utf16Length(v.value.s)
    ensures r.Some? ==> v.value == JString(r.value) && min <= Utf16Length(r.value)
  {
    if v.Defined? && v.value.JString? && min <= Utf16Length(v.value.s) then Some(v.value.s) else None
  }

  /** `z.string().length(n)` */
  function StrLength(v: Opt<JsonValue>, n: nat): (r: Option<string>)
    ensures r.Some? <==> v.Defined? && v.value.JString? && Utf16Length(v.value.s) == n
    ensures r.Some? ==> v.value == JString(r.value) && Utf16Length(r.value) == n
  {
    if v.Defined? && v.value.JString? && Utf16Length(v.value.s) == n then Some(v.value.s) else None
  }

  /** `z.string().email()` */
  function Email(v: Opt<JsonValue>, isEmail: string -> bool): (r: Option<string>)
    ensures r.Some? <==> v.Defined? && v.value.JString? && isEmail(v.value.s)
    ensures r.Some? ==> v.value == JString(r.value) && isEmail(r.value)
  {
    if v.Defined? && v.value.JString? && isEmail(v.value.s) then Some(v.value.s) else None
  }

  /** `z.number()` */
  function Num(v: Opt<JsonValue>): (r: Option<real>)
    ensures r.Some? <==> v.Defined? && v.value.JNumber?
    ensures r.Some? ==> v.value == JNumber(r.value)
  {
    if v.Defined? && v.value.JNumber? then Some(v.value.n) else None
  }

  /** `z.number().positive()` */
  function Positive(v: Opt<JsonValue>): (r: Option<real>)
    ensures r.Some? <==> v.Defined? && v.value.JNumber? && 0.0 < v.value.n
    ensures r.Some? ==> v.value == JNumber(r.value) && 0.0 < r.value
  {
    if v.Defined? && v.value.JNumber? && 0.0 < v.value.n then Some(v.value.n) else None
  }

  /** `z.number().nullable().optional()`: absent, null or a number. */
  function NullishNumber(v: Opt<JsonValue>): (r: Option<Opt<Option<real>>>)
    ensures v.Undefined? ==> r == Some(Undefined)
    ensures v == Defined(JNull) ==> r == Some(Defined(None))
    ensures r.Some? && r.value.Defined? && r.value.value.Some? ==> v == Defined(JNumber(r.value.value.value))
    ensures v.Defined? && !v.value.JNull? && !v.value.JNumber? ==> r.None?
  {
    if v.Undefined? then Some(Undefined)
    else if v.value.JNull? then Some(Defined(None))
    else if v.value.JNumber? then Some(Defined(Some(v.value.n)))
    else None
  }

  /** `z.coerce.date()`: the input goes through `new Date(...)`, and an
      invalid date is refused. An absent property becomes `new Date(undefined)`,
      which is invalid. */
  function CoercedDate(v: Opt<JsonValue>, coerce: JsonValue -> Option<Date>): (r: Option<Date>)
    ensures v.Undefined? ==> r.None?
    ensures v.Defined? ==> r == coerce(v.value)
  {
    if v.Undefined? then None else coerce(v.value)
  }

  /** `z.nativeEnum(ContractStatus)`: one of the enumeration's string values. */
  function Status(v: Opt<JsonValue>): (r: Option<ContractStatus>)
    ensures r.Some? ==> v == Defined(JString(StatusName(r.value)))
    ensures forall s :: v == Defined(JString(StatusName(s))) ==> r == Some(s)
  {
    if v.Defined? && v.value.JString? then StatusNamed(v.value.s) else None
  }

  /** `.optional()` on a schema `p`: undefined is accepted as undefined; any
      other input must satisfy `p`. */
  function Optional<T>(v: Opt<JsonValue>, p: Opt<JsonValue> -> Option<T>): (r: Option<Opt<T>>)
    ensures v.Undefined? ==> r == Some(Undefined)
    ensures v.Defined? ==> (r.Some? <==> p(v).Some?)
    ensures v.Defined? && r.Some? ==> r.value == Defined(p(v).value)
  {
    if v.Undefined? then Some(Undefined)
    else if p(v).Some? then Some(Defined(p(v).value))
    else None
  }

  /** The JSON form of a value that may be absent: how a client writes an
      optional property. */
  function OptJson<T>(o: Opt<T>, enc: T -> JsonValue): (r: Opt<JsonValue>)
    ensures o.Undefined? <==> r.Undefined?
    ensures o.Defined? ==> r == Defined(enc(o.value))
  {
    if o.Defined? then Defined(enc(o.value)) else Undefined
  }
}
