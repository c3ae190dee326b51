/** `ContractController`: the contract schema (status enumeration, coerced
    dates), its fully partial update form, and the status mapping, whose
    `getById` and `delete` catch-alls differ from the other controllers. */
module ContractControllers {
  import opened Js
  import opened Numbers
  import opened Json
  import opened Zod
  import opened Models
  import opened Http
  import opened ContractServices

  const ContractNotFoundBody := "Contract not found"

  function NumberJson(n: real): JsonValue {
    JNumber(n)
  }

  function StringJson(s: string): JsonValue {
    JString(s)
  }

  function StatusJson(s: ContractStatus): JsonValue {
    JString(StatusName(s))
  }

  /** `z.coerce.date().optional()`: absent stays absent, anything else must
      coerce to a valid date. */
  function OptionalDate(v: Opt<JsonValue>, coerce: JsonValue -> Option<Date>): (r: Option<Opt<Date>>)
    ensures v.Undefined? ==> r == Some(Undefined)
    ensures v.Defined? ==> (r.Some? <==> coerce(v.value).Some?)
    ensures v.Defined? && r.Some? ==> r.value == Defined(coerce(v.value).value)
  {
    Optional(v, w => CoercedDate(w, coerce))
  }

  /** `ContractSchema.parse(body)`: every property but `endDate` and
      `observation` is required; dates go through `coerce`. */
  function ParseCreate(body: JsonValue, coerce: JsonValue -> Option<Date>): (r: Option<ContractData>)
    ensures r.Some? ==> body.JObject?
    ensures r.Some? ==>
              && Field(body, "contractCode") == Defined(JString(r.value.contractCode))
              && Field(body, "clientId") == Defined(JNumber(r.value.clientId))
              && Field(body, "serviceId") == Defined(JNumber(r.value.serviceId))
              && Field(body, "quantity") == Defined(JNumber(r.value.quantity))
              && Field(body, "unitPrice") == Defined(JNumber(r.value.unitPrice))
              && Field(body, "status") == Defined(StatusJson(r.value.status))
              && Field(body, "observation") == OptJson(r.value.observation, StringJson)
    ensures r.Some? ==>
              && Field(body, "startDate").Defined?
              && coerce(Field(body, "startDate").value) == Some(r.value.startDate)
              && (r.value.endDate.Defined? <==> Field(body, "endDate").Defined?)
              && (r.value.endDate.Defined? ==> coerce(Field(body, "endDate").value) == Some(r.value.endDate.value))
    ensures Field(body, "startDate").Undefined? ==> r.None?
  {
    if !body.JObject? then None
    else
      var contractCode := Str(Field(body, "contractCode"));
      var clientId := Num(Field(body, "clientId"));
      var serviceId := Num(Field(body, "serviceId"));
      var quantity := Num(Field(body, "quantity"));
      var unitPrice := Num(Field(body, "unitPrice"));
      var startDate := CoercedDate(Field(body, "startDate"), coerce);
      var endDate := OptionalDate(Field(body, "endDate"), coerce);
      var status := Status(Field(body, "status"));
      var observation := Optional(Field(body, "observation"), Str);
      if && contractCode.Some? && clientId.Some? && serviceId.Some? && quantity.Some? && unitPrice.Some?
         && startDate.Some? && endDate.Some? && status.Some? && observation.Some?
      then
        Some(ContractData(
          contractCode.value, clientId.value, serviceId.value, quantity.value, unitPrice.value,
          startDate.value, endDate.value, status.value, observation.value))
      else None
  }

  /** The body a client sends to create a contract: the dates as they are
      written on the wire (`start`, `end`), the rest from `d`. */
  function CreateJson(d: ContractData, start: JsonValue, end: Opt<JsonValue>): JsonValue {
    JObject(WithOptional(WithOptional(
      map[
        "contractCode" := JString(d.contractCode),
        "clientId" := JNumber(d.clientId),
        "serviceId" := JNumber(d.serviceId),
        "quantity" := JNumber(d.quantity),
        "unitPrice" := JNumber(d.unitPrice),
        "startDate" := start,
        "status" := StatusJson(d.status)],
      "endDate", end),
      "observation", OptJson(d.observation, StringJson)))
  }

  /** Every contract gets through, its dates as `coerce` reads them: a
      date-like start date reaches the service as a date, not as a string. */
  lemma CreateRoundTrip(d: ContractData, start: JsonValue, end: Opt<JsonValue>, coerce: JsonValue -> Option<Date>)
    requires coerce(start) == Some(d.startDate)
    requires end.Defined? <==> d.endDate.Defined?
    requires end.Defined? ==> coerce(end.value) == Some(d.endDate.value)
    ensures ParseCreate(CreateJson(d, start, end), coerce) == Some(d)
  {
    var body := CreateJson(d, start, end);
    assert Field(body, "contractCode") == Defined(JString(d.contractCode));
    assert Field(body, "clientId") == Defined(JNumber(d.clientId));
    assert Field(body, "serviceId") == Defined(JNumber(d.serviceId));
    assert Field(body, "quantity") == Defined(JNumber(d.quantity));
    assert Field(body, "unitPrice") == Defined(JNumber(d.unitPrice));
    assert Field(body, "startDate") == Defined(start);
    assert Field(body, "endDate") == end;
    assert Field(body, "status") == Defined(StatusJson(d.status));
    assert Field(body, "observation") == OptJson(d.observation, StringJson);
  }

  /** A status outside ACTIVE, INACTIVE and PENDING is refused. */
  lemma CreateRefusesUnknownStatus(body: JsonValue, name: string, coerce: JsonValue -> Option<Date>)
    requires Field(body, "status") == Defined(JString(name))
    requires name != "ACTIVE" && name != "INACTIVE" && name != "PENDING"
    ensures ParseCreate(body, coerce).None?
  {
  }

  /** `ContractSchema.partial().parse(body)`: every property optional, no
      refinement, so `{}` is accepted. */
  function ParseUpdate(body: JsonValue, coerce: JsonValue -> Option<Date>): (r: Option<ContractPatch>)
    ensures r.Some? ==> body.JObject?
    ensures r.Some? ==>
              && Field(body, "contractCode") == OptJson(r.value.contractCode, StringJson)
              && Field(body, "clientId") == OptJson(r.value.clientId, NumberJson)
              && Field(body, "serviceId") == OptJson(r.value.serviceId, NumberJson)
              && Field(body, "quantity") == OptJson(r.value.quantity, NumberJson)
              && Field(body, "unitPrice") == OptJson(r.value.unitPrice, NumberJson)
              && Field(body, "status") == OptJson(r.value.status, StatusJson)
              && Field(body, "observation") == OptJson(r.value.observation, StringJson)
    ensures r.Some? ==>
              && (r.value.startDate.Defined? <==> Field(body, "startDate").Defined?)
              && (r.value.startDate.Defined? ==> coerce(Field(body, "startDate").value) == Some(r.value.startDate.value))
              && (r.value.endDate.Defined? <==> Field(body, "endDate").Defined?)
              && (r.value.endDate.Defined? ==> coerce(Field(body, "endDate").value) == Some(r.value.endDate.value))
  {
    if !body.JObject? then None
    else
      var contractCode := Optional(Field(body, "contractCode"), Str);
      var clientId := Optional(Field(body, "clientId"), Num);
      var serviceId := Optional(Field(body, "serviceId"), Num);
      var quantity := Optional(Field(body, "quantity"), Num);
      var unitPrice := Optional(Field(body, "unitPrice"), Num);
      var startDate := OptionalDate(Field(body, "startDate"), coerce);
      var endDate := OptionalDate(Field(body, "endDate"), coerce);
      var status := Optional(Field(body, "status"), Status);
      var observation := Optional(Field(body, "observation"), Str);
      if && contractCode.Some? && clientId.Some? && serviceId.Some? && quantity.Some? && unitPrice.Some?
         && startDate.Some? && endDate.Some? && status.Some? && observation.Some?
      then
        Some(ContractPatch(
          contractCode.value, clientId.value, serviceId.value, quantity.value, unitPrice.value,
          startDate.value, endDate.value, status.value, observation.value))
      else None
  }

  /** The properties of `ContractSchema`. */
  const ContractProperties: set<string> :=
    {"contractCode", "clientId", "serviceId", "quantity", "unitPrice", "startDate", "endDate", "status", "observation"}

  /** The JSON a client writes for property `name` of a patch: absent when the
      patch does not supply it, the dates as written on the wire (`start`,
      `end`). */
  function UpdateProperty(p: ContractPatch, start: Opt<JsonValue>, end: Opt<JsonValue>, name: string): Opt<JsonValue> {
    if name == "contractCode" then OptJson(p.contractCode, StringJson)
    else if name == "clientId" then OptJson(p.clientId, NumberJson)
    else if name == "serviceId" then OptJson(p.serviceId, NumberJson)
    else if name == "quantity" then OptJson(p.quantity, NumberJson)
    else if name == "unitPrice" then OptJson(p.unitPrice, NumberJson)
    else if name == "startDate" then start
    else if name == "endDate" then end
    else if name == "status" then OptJson(p.status, StatusJson)
    else if name == "observation" then OptJson(p.observation, StringJson)
    else Undefined
  }

  /** The body a client sends to patch a contract: each property present
      exactly when the patch supplies it. */
  function UpdateJson(p: ContractPatch, start: Opt<JsonValue>, end: Opt<JsonValue>): JsonValue {
    JObject(map name | name in ContractProperties && UpdateProperty(p, start, end, name).Defined?
                     :: UpdateProperty(p, start, end, name).value)
  }

  /** Any object whose properties are those of a patch, its dates coercing
      to the patch's dates, parses to that patch. */
  lemma ParseUpdateOfFields(body: JsonValue, p: ContractPatch, start: Opt<JsonValue>, end: Opt<JsonValue>, coerce: JsonValue -> Option<Date>)
    requires body.JObject?
    requires Field(body, "contractCode") == OptJson(p.contractCode, StringJson)
    requires Field(body, "clientId") == OptJson(p.clientId, NumberJson)
    requires Field(body, "serviceId") == OptJson(p.serviceId, NumberJson)
    requires Field(body, "quantity") == OptJson(p.quantity, NumberJson)
    requires Field(body, "unitPrice") == OptJson(p.unitPrice, NumberJson)
    requires Field(body, "startDate") == start && Field(body, "endDate") == end
    requires Field(body, "status") == OptJson(p.status, StatusJson)
    requires Field(body, "observation") == OptJson(p.observation, StringJson)
    requires OptionalDate(start, coerce) == Some(p.startDate)
    requires OptionalDate(end, coerce) == Some(p.endDate)
    ensures ParseUpdate(body, coerce) == Some(p)
  {
    assert Optional(Field(body, "contractCode"), Str) == Some(p.contractCode);
    assert Optional(Field(body, "clientId"), Num) == Some(p.clientId);
    assert Optional(Field(body, "serviceId"), Num) == Some(p.serviceId);
    assert Optional(Field(body, "quantity"), Num) == Some(p.quantity);
    assert Optional(Field(body, "unitPrice"), Num) == Some(p.unitPrice);
    assert Optional(Field(body, "status"), Status) == Some(p.status);
    assert Optional(Field(body, "observation"), Str) == Some(p.observation);
  }

  /** Every patch gets through, whichever properties it carries, its dates as
      `coerce` reads them. */
  lemma UpdateRoundTrip(p: ContractPatch, start: Opt<JsonValue>, end: Opt<JsonValue>, coerce: JsonValue -> Option<Date>)
    requires OptionalDate(start, coerce) == Some(p.startDate)
    requires OptionalDate(end, coerce) == Some(p.endDate)
    ensures ParseUpdate(UpdateJson(p, start, end), coerce) == Some(p)
  {
    var body := UpdateJson(p, start, end);
    assert Field(body, "contractCode") == OptJson(p.contractCode, StringJson);
    assert Field(body, "clientId") == OptJson(p.clientId, NumberJson);
    assert Field(body, "serviceId") == OptJson(p.serviceId, NumberJson);
    assert Field(body, "quantity") == OptJson(p.quantity, NumberJson);
    assert Field(body, "unitPrice") == OptJson(p.unitPrice, NumberJson);
    assert Field(body, "startDate") == start;
    assert Field(body, "endDate") == end;
    assert Field(body, "status") == OptJson(p.status, StatusJson);
    assert Field(body, "observation") == OptJson(p.observation, StringJson);
    ParseUpdateOfFields(body, p, start, end, coerce);
  }

  /** The patch that changes nothing. */
  function NoChange(): ContractPatch {
    ContractPatch(Undefined, Undefined, Undefined, Undefined, Undefined, Undefined, Undefined, Undefined, Undefined)
  }

  /** Unlike the other update schemas, the contract one accepts an empty body. */
  lemma UpdateAcceptsEmptyBody(coerce: JsonValue -> Option<Date>)
    ensures ParseUpdate(JObject(map[]), coerce) == Some(NoChange())
  {
  }

  /** `create(req, res)` */
  function Create(body: JsonValue, coerce: JsonValue -> Option<Date>, create: ContractData -> Result<Contract>)
    : (x: Exchange<ContractData, Contract>)
    ensures x.call == ParseCreate(body, coerce)
    ensures x.call.None? ==> x.response == Response(400, ValidationFailed)
    ensures x.response.status == 201 <==> x.call.Some? && create(x.call.value).Ok?
    ensures x.response.status == 201 ==> x.response.body == Entity(create(x.call.value).value)
    ensures x.response.status == 201 || x.response.status == 400
    ensures x.call.Some? && create(x.call.value).Err? ==> x.response.body == Error(create(x.call.value).message)
  {
    var data := ParseCreate(body, coerce);
    if data.None? then Exchange(None, Response(400, ValidationFailed))
    else
      match create(data.value)
      case Ok(contract) => Exchange(data, Response(201, Entity(contract)))
      case Err(m) => Exchange(data, Response(400, Error(m)))
  }

  /** `update(req, res)`: 200 with the contract alone, no message. */
  function Update(id: Opt<string>, body: JsonValue, coerce: JsonValue -> Option<Date>, update: (JsInt, ContractPatch) -> Result<Contract>)
    : (x: Exchange<(JsInt, ContractPatch), Contract>)
    ensures x.call.Some? <==> ParseId(id).Some? && ParseUpdate(body, coerce).Some?
    ensures x.call.Some? ==> x.call.value == (ParseId(id).value, ParseUpdate(body, coerce).value)
    ensures x.call.None? ==> x.response == Response(400, ValidationFailed)
    ensures x.response.status == 200 <==> x.call.Some? && update(x.call.value.0, x.call.value.1).Ok?
    ensures x.response.status == 200 ==> x.response.body == Entity(update(x.call.value.0, x.call.value.1).value)
    ensures x.call.Some? && update(x.call.value.0, x.call.value.1).Err? ==>
              x.response == Response(404, Error(update(x.call.value.0, x.call.value.1).message))
  {
    var k := ParseId(id);
    if k.None? then Exchange(None, Response(400, ValidationFailed))
    else
      var data := ParseUpdate(body, coerce);
      if data.None? then Exchange(None, Response(400, ValidationFailed))
      else
        match update(k.value, data.value)
        case Ok(contract) => Exchange(Some((k.value, data.value)), Response(200, Entity(contract)))
        case Err(m) => Exchange(Some((k.value, data.value)), Response(404, Error(m)))
  }

  /** `getById(req, res)`: its catch-all answers every error with 400 and the
      error's message, a `ZodError` included. */
  function GetById(id: Opt<string>, getById: JsInt -> Result<Option<Contract>>): (x: Exchange<JsInt, Contract>)
    ensures x.call == ParseId(id)
    ensures x.call.None? ==> x.response == Response(400, ValidationMessage)
    ensures x.call.Some? && getById(x.call.value) == Ok(None) ==> x.response == Response(404, Error(ContractNotFoundBody))
    ensures x.response.status == 200 <==> x.call.Some? && getById(x.call.value).Ok? && getById(x.call.value).value.Some?
    ensures x.response.status == 200 ==> x.response.body == Entity(getById(x.call.value).value.value)
    ensures x.call.Some? && getById(x.call.value).Err? ==> x.response == Response(400, Error(getById(x.call.value).message))
  {
    var k := ParseId(id);
    if k.None? then Exchange(None, Response(400, ValidationMessage))
    else
      match getById(k.value)
      case Ok(found) =>
        if found.None? then Exchange(k, Response(404, Error(ContractNotFoundBody)))
        else Exchange(k, Response(200, Entity(found.value)))
      case Err(m) => Exchange(k, Response(400, Error(m)))
  }

  /** `getAll(req, res)` */
  function GetAll(all: Result<seq<Contract>>): (r: Response<seq<Contract>>)
    ensures r.status == 200 <==> all.Ok?
    ensures all.Ok? ==> r.body == Entity(all.value)
    ensures all.Err? ==> r == Response(500, Error(all.message))
  {
    match all
    case Ok(contracts) => Response(200, Entity(contracts))
    case Err(m) => Response(500, Error(m))
  }

  /** `delete(req, res)`: its catch-all answers every error with 404, a
      `ZodError` included. */
  function Delete(id: Opt<string>, delete: JsInt -> Result<()>): (x: Exchange<JsInt, ()>)
    ensures x.call == ParseId(id)
    ensures x.response.status == 204 <==> x.call.Some? && delete(x.call.value).Ok?
    ensures x.response.status == 204 ==> x.response.body == NoContent
    ensures x.response.status == 204 || x.response.status == 404
    ensures x.call.None? ==> x.response == Response(404, ValidationMessage)
    ensures x.call.Some? && delete(x.call.value).Err? ==> x.response == Response(404, Error(delete(x.call.value).message))
  {
    var k := ParseId(id);
    if k.None? then Exchange(None, Response(404, ValidationMessage))
    else
      match delete(k.value)
      case Ok(_) => Exchange(k, Response(204, NoContent))
      case Err(m) => Exchange(k, Response(404, Error(m)))
  }
}
