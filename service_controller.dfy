/** `ServiceController`: request validation with zod, the call into
    `ServiceService`, and the status and body each outcome is answered with. */
module ServiceControllers {
  import opened Js
  import opened Numbers
  import opened Json
  import opened Zod
  import opened Models
  import opened Http
  import opened ServiceServices

  const ServiceNotFoundBody := "Service not found"
  const ServiceUpdated := "Service updated successfully"

  /** The constraints `ServiceRegisterSchema` puts on the values it lets through. */
  predicate CreateAccepts(d: ServiceCreationRequest) {
    && 3 <= Utf16Length(d.name)
    && 2 <= Utf16Length(d.code)
    && (d.defaultPrice.Defined? ==> 0.0 < d.defaultPrice.value)
  }

  function NumberJson(n: real): JsonValue {
    JNumber(n)
  }

  function StringJson(s: string): JsonValue {
    JString(s)
  }

  /** The body a client sends to create `d`. */
  function CreateJson(d: ServiceCreationRequest): JsonValue {
    JObject(WithOptional(
      map["name" := JString(d.name), "code" := JString(d.code)],
      "defaultPrice", OptJson(d.defaultPrice, NumberJson)))
  }

  /** `ServiceRegisterSchema.parse(body)` */
  function ParseCreate(body: JsonValue): (r: Option<ServiceCreationRequest>)
    ensures r.Some? ==> body.JObject? && CreateAccepts(r.value)
    ensures r.Some? ==>
              && Field(body, "name") == Defined(JString(r.value.name))
              && Field(body, "code") == Defined(JString(r.value.code))
              && Field(body, "defaultPrice") == OptJson(r.value.defaultPrice, NumberJson)
  {
    if !body.JObject? then None
    else
      var name := StrMin(Field(body, "name"), 3);
      var code := StrMin(Field(body, "code"), 2);
      var defaultPrice := Optional(Field(body, "defaultPrice"), Positive);
      if name.Some? && code.Some? && defaultPrice.Some? then
        Some(ServiceCreationRequest(name.value, code.value, defaultPrice.value))
      else None
  }

  lemma CreateRoundTrip(d: ServiceCreationRequest)
    requires CreateAccepts(d)
    ensures ParseCreate(CreateJson(d)) == Some(d)
  {
  }

  /** A zero or negative default price is refused. */
  lemma CreateRefusesNonPositivePrice(d: ServiceCreationRequest)
    requires d.defaultPrice.Defined? && d.defaultPrice.value <= 0.0
    ensures ParseCreate(CreateJson(d)).None?
  {
  }

  /** The refinement of `ServiceUpdateSchema`: a truthy name or code, or a
      default price. */
  predicate UpdateNonEmpty(d: ServiceUpdateRequest) {
    SuppliedString(d.name) || SuppliedString(d.code) || d.defaultPrice.Defined?
  }

  predicate UpdateAccepts(d: ServiceUpdateRequest) {
    && (d.name.Defined? ==> 3 <= Utf16Length(d.name.value))
    && (d.code.Defined? ==> 2 <= Utf16Length(d.code.value))
    && (d.defaultPrice.Defined? ==> 0.0 < d.defaultPrice.value)
    && UpdateNonEmpty(d)
  }

  function UpdateJson(d: ServiceUpdateRequest): JsonValue {
    JObject(
      WithOptional(WithOptional(WithOptional(map[],
        "name", OptJson(d.name, StringJson)),
        "code", OptJson(d.code, StringJson)),
        "defaultPrice", OptJson(d.defaultPrice, NumberJson)))
  }

  /** `ServiceUpdateSchema.parse(body)` */
  function ParseUpdate(body: JsonValue): (r: Option<ServiceUpdateRequest>)
    ensures r.Some? ==> body.JObject? && UpdateAccepts(r.value)
    ensures r.Some? ==>
              && Field(body, "name") == OptJson(r.value.name, StringJson)
              && Field(body, "code") == OptJson(r.value.code, StringJson)
              && Field(body, "defaultPrice") == OptJson(r.value.defaultPrice, NumberJson)
  {
    if !body.JObject? then None
    else
      var name := Optional(Field(body, "name"), v => StrMin(v, 3));
      var code := Optional(Field(body, "code"), v => StrMin(v, 2));
      var defaultPrice := Optional(Field(body, "defaultPrice"), Positive);
      if name.Some? && code.Some? && defaultPrice.Some? then
        var d := ServiceUpdateRequest(name.value, code.value, defaultPrice.value);
        if UpdateNonEmpty(d) then Some(d) else None
      else None
  }

  lemma UpdateRoundTrip(d: ServiceUpdateRequest)
    requires UpdateAccepts(d)
    ensures ParseUpdate(UpdateJson(d)) == Some(d)
  {
  }

  lemma UpdateRefusesEmptyBody()
    ensures ParseUpdate(JObject(map[])).None?
  {
  }

  /** `create(req, res)` */
  function Create(body: JsonValue, create: ServiceCreationRequest -> Result<Service>): (x: Exchange<ServiceCreationRequest, Service>)
    ensures x.call == ParseCreate(body)
    ensures x.call.None? ==> x.response == Response(400, ValidationFailed)
    ensures x.response.status == 201 <==> x.call.Some? && create(x.call.value).Ok?
    ensures x.response.status == 201 ==> x.response.body == Entity(create(x.call.value).value)
    ensures x.response.status == 201 || x.response.status == 400
    ensures x.call.Some? && create(x.call.value).Err? ==> x.response.body == Error(create(x.call.value).message)
  {
    var data := ParseCreate(body);
    if data.None? then Exchange(None, Response(400, ValidationFailed))
    else
      match create(data.value)
      case Ok(service) => Exchange(data, Response(201, Entity(service)))
      case Err(m) => Exchange(data, Response(400, Error(m)))
  }

  /** `getById(req, res)` */
  function GetById(id: Opt<string>, getById: JsInt -> Result<Option<Service>>): (x: Exchange<JsInt, Service>)
    ensures x.call == ParseId(id)
    ensures x.call.None? ==> x.response == Response(400, ValidationFailed)
    ensures x.call.Some? && getById(x.call.value) == Ok(None) ==> x.response == Response(404, Error(ServiceNotFoundBody))
    ensures x.response.status == 200 <==> x.call.Some? && getById(x.call.value).Ok? && getById(x.call.value).value.Some?
    ensures x.response.status == 200 ==> x.response.body == Entity(getById(x.call.value).value.value)
    ensures x.call.Some? && getById(x.call.value).Err? ==> x.response == Response(500, Error(getById(x.call.value).message))
  {
    var k := ParseId(id);
    if k.None? then Exchange(None, Response(400, ValidationFailed))
    else
      match getById(k.value)
      case Ok(found) =>
        if found.None? then Exchange(k, Response(404, Error(ServiceNotFoundBody)))
        else Exchange(k, Response(200, Entity(found.value)))
      case Err(m) => Exchange(k, Response(500, Error(m)))
  }

  /** `getAll(req, res)` */
  function GetAll(all: Result<seq<Service>>): (r: Response<seq<Service>>)
    ensures r.status == 200 <==> all.Ok?
    ensures all.Ok? ==> r.body == Entity(all.value)
    ensures all.Err? ==> r == Response(500, Error(all.message))
  {
    match all
    case Ok(services) => Response(200, Entity(services))
    case Err(m) => Response(500, Error(m))
  }

  /** `update(req, res)`: the id is parsed before the body. */
  function Update(id: Opt<string>, body: JsonValue, update: (JsInt, ServiceUpdateRequest) -> Result<Service>)
    : (x: Exchange<(JsInt, ServiceUpdateRequest), Service>)
    ensures x.call.Some? <==> ParseId(id).Some? && ParseUpdate(body).Some?
    ensures x.call.Some? ==> x.call.value == (ParseId(id).value, ParseUpdate(body).value)
    ensures x.call.None? ==> x.response == Response(400, ValidationFailed)
    ensures x.response.status == 200 <==> x.call.Some? && update(x.call.value.0, x.call.value.1).Ok?
    ensures x.response.status == 200 ==>
              x.response.body == EntityWithMessage(update(x.call.value.0, x.call.value.1).value, ServiceUpdated)
    ensures x.call.Some? && update(x.call.value.0, x.call.value.1).Err? ==>
              x.response == Response(404, Error(update(x.call.value.0, x.call.value.1).message))
  {
    var k := ParseId(id);
    if k.None? then Exchange(None, Response(400, ValidationFailed))
    else
      var data := ParseUpdate(body);
      if data.None? then Exchange(None, Response(400, ValidationFailed))
      else
        match update(k.value, data.value)
        case Ok(service) => Exchange(Some((k.value, data.value)), Response(200, EntityWithMessage(service, ServiceUpdated)))
        case Err(m) => Exchange(Some((k.value, data.value)), Response(404, Error(m)))
  }

  /** `delete(req, res)` */
  function Delete(id: Opt<string>, delete: JsInt -> Result<()>): (x: Exchange<JsInt, ()>)
    ensures x.call == ParseId(id)
    ensures x.call.None? ==> x.response == Response(400, ValidationFailed)
    ensures x.response.status == 204 <==> x.call.Some? && delete(x.call.value).Ok?
    ensures x.response.status == 204 ==> x.response.body == NoContent
    ensures x.call.Some? && delete(x.call.value).Err? ==> x.response == Response(404, Error(delete(x.call.value).message))
  {
    var k := ParseId(id);
    if k.None? then Exchange(None, Response(400, ValidationFailed))
    else
      match delete(k.value)
      case Ok(_) => Exchange(k, Response(204, NoContent))
      case Err(m) => Exchange(k, Response(404, Error(m)))
  }

  /** A one-character code is refused before the service is reached. */
  lemma CreateShortCode(create: ServiceCreationRequest -> Result<Service>)
    ensures Create(JObject(map["name" := JString("Maintenance"), "code" := JString("A")]), create)
            == Exchange(None, Response(400, ValidationFailed))
  {
  }

  /** `GET /services/10` asks the service for service 10, as a number, and
      answers 200 with what it found. */
  lemma GetByIdTen(getById: JsInt -> Result<Option<Service>>, found: Service)
    requires getById(Int(10)) == Ok(Some(found))
    ensures GetById(Defined("10"), getById) == Exchange(Some(Int(10)), Response(200, Entity(found)))
  {
    IdTen();
  }

  /** `PUT /services/5` with only a new name calls the service with 5 and that
      name, and answers 200 with the updated service and the message. */
  lemma UpdateFiveName(update: (JsInt, ServiceUpdateRequest) -> Result<Service>, updated: Service)
    requires update(Int(5), ServiceUpdateRequest(Defined("Novo Nome"), Undefined, Undefined)) == Ok(updated)
    ensures Update(Defined("5"), JObject(map["name" := JString("Novo Nome")]), update)
            == Exchange(Some((Int(5), ServiceUpdateRequest(Defined("Novo Nome"), Undefined, Undefined))),
                        Response(200, EntityWithMessage(updated, ServiceUpdated)))
  {
    IdOfDecimal(5);
    assert DigitChar(5) == '5';
    assert DecimalString(5) == "5";
    var body := JObject(map["name" := JString("Novo Nome")]);
    assert Field(body, "code").Undefined? && Field(body, "defaultPrice").Undefined?;
    assert ParseUpdate(body) == Some(ServiceUpdateRequest(Defined("Novo Nome"), Undefined, Undefined));
  }

  /** `DELETE /services/1` calls the service with 1 and answers 204. */
  lemma DeleteOne(delete: JsInt -> Result<()>)
    requires delete(Int(1)).Ok?
    ensures Delete(Defined("1"), delete) == Exchange(Some(Int(1)), Response(204, NoContent))
  {
    IdOfDecimal(1);
    assert DigitChar(1) == '1';
    assert DecimalString(1) == "1";
  }
}
