/** What a controller handler produces: the service call it made, if any,
    and the response it wrote. */
module Http {
  import opened Js
  import opened Numbers

  /** The JSON bodies the handlers write.
      `ValidationFailed` is `{ error: "Validation failed", details }`;
      `ValidationMessage` is `{ error: zodError.message }`, what a catch-all
      handler writes for a `ZodError`; `Error(m)` is `{ error: m }`. */
  datatype Body<+E> =
    | NoContent
    | Entity(value: E)
    | EntityWithMessage(value: E, message: string)
    | Error(error: string)
    | ValidationFailed
    | ValidationMessage

  datatype Response<+E> = Response(status: int, body: Body<E>)

  /** One request handled: the arguments the service was called with (`None`
      when validation stopped the request first) and the response. */
  datatype Exchange<+A, +E> = Exchange(call: Option<A>, response: Response<E>)

  /** `z.object({ id: z.string().transform(val => parseInt(val, 10)) })` on the
      path parameters: a missing id is a `ZodError`, any string is accepted and
      parsed, NaN included. */
  function ParseId(id: Opt<string>): (r: Option<JsInt>)
    ensures r.Some? <==> id.Defined?
    ensures r.Some? ==> r.value == ParseInt(id.value)
  {
    if id.Defined? then Some(ParseInt(id.value)) else None
  }

  /** The path `/…/10` reaches the service as the integer 10. */
  lemma IdOfDecimal(n: nat)
    ensures ParseId(Defined(DecimalString(n))) == Some(Int(n))
  {
    ParseIntOfDecimal(n, []);
    assert DecimalString(n) + [] == DecimalString(n);
  }

  lemma IdTen()
    ensures ParseId(Defined("10")) == Some(Int(10))
  {
    assert DigitChar(1) == '1' && DigitChar(0) == '0';
    assert DecimalString(10) == DecimalString(1) + [DigitChar(0)] == "10";
    IdOfDecimal(10);
  }
}
