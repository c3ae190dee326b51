/** `ClientController`: request validation with zod, the call into
    `ClientService`, and the status and body each outcome is answered with. */
module ClientControllers {
  import opened Js
  import opened Numbers
  import opened Json
  import opened Zod
  import opened Models
  import opened Http
  import opened ClientServices

  const ClientNotFoundBody := "Client not found"
  const ClientUpdated := "Client updated successfully"

  /** The constraints `ClientRegisterSchema` puts on the values it lets through. */
  predicate RegisterAccepts(d: ClientCreationRequest) {
    1 <= Utf16Length(d.nickname) && 1 <= Utf16Length(d.companyName) && Utf16Length(d.cnpj) == 14
  }

  /** `code` as JSON: a number or null. */
  function NullableNumberJson(o: Option<real>): JsonValue {
    if o.Some? then JNumber(o.value) else JNull
  }

  /** The body a client sends to register `d`. */
  function RegisterJson(d: ClientCreationRequest): JsonValue {
    JObject(WithOptional(
      map["nickname" := JString(d.nickname), "companyName" := JString(d.companyName), "cnpj" := JString(d.cnpj)],
      "code", OptJson(d.code, NullableNumberJson)))
  }

  /** `ClientRegisterSchema.parse(body)`: what gets through meets the schema's
      constraints and is what the body holds. */
  function ParseRegister(body: JsonValue): (r: Option<ClientCreationRequest>)
    ensures r.Some? ==> body.JObject? && RegisterAccepts(r.value)
    ensures r.Some? ==>
              && Field(body, "nickname") == Defined(JString(r.value.nickname))
              && Field(body, "companyName") == Defined(JString(r.value.companyName))
              && Field(body, "cnpj") == Defined(JString(r.value.cnpj))
              && Field(body, "code") == OptJson(r.value.code, NullableNumberJson)
  {
    if !body.JObject? then None
    else
      var code := NullishNumber(Field(body, "code"));
      var nickname := StrMin(Field(body, "nickname"), 1);
      var companyName := StrMin(Field(body, "companyName"), 1);
      var cnpj := StrLength(Field(body, "cnpj"), 14);
      if code.Some? && nickname.Some? && companyName.Some? && cnpj.Some? then
        Some(ClientCreationRequest(code.value, nickname.value, companyName.value, cnpj.value))
      else None
  }

  /** Every registration the schema's constraints allow gets through, with a
      code that is a number, null or absent. */
  lemma RegisterRoundTrip(d: ClientCreationRequest)
    requires RegisterAccepts(d)
    ensures ParseRegister(RegisterJson(d)) == Some(d)
  {
  }

  /** A CNPJ of any length other than 14 is refused. */
  lemma RegisterRefusesCnpjLength(d: ClientCreationRequest)
    requires Utf16Length(d.cnpj) != 14
    ensures ParseRegister(RegisterJson(d)).None?
  {
  }

  /** The refinement of `ClientUpdateSchema`: a code, or a truthy nickname,
      company name or CNPJ. */
  predicate UpdateNonEmpty(d: ClientUpdateRequest) {
    d.code.Defined? || SuppliedString(d.nickname) || SuppliedString(d.companyName) || SuppliedString(d.cnpj)
  }

  /** The constraints `ClientUpdateSchema` puts on the values it lets through. */
  predicate UpdateAccepts(d: ClientUpdateRequest) {
    && (d.nickname.Defined? ==> 1 <= Utf16Length(d.nickname.value))
    && (d.companyName.Defined? ==> 1 <= Utf16Length(d.companyName.value))
    && (d.cnpj.Defined? ==> Utf16Length(d.cnpj.value) == 14)
    && UpdateNonEmpty(d)
  }

  function StringJson(s: string): JsonValue {
    JString(s)
  }

  function NumberJson(n: real): JsonValue {
    JNumber(n)
  }

  /** The body a client sends to update with `d`. */
  function UpdateJson(d: ClientUpdateRequest): JsonValue {
    JObject(
      WithOptional(WithOptional(WithOptional(WithOptional(map[],
        "code", OptJson(d.code, NumberJson)),
        "nickname", OptJson(d.nickname, StringJson)),
        "companyName", OptJson(d.companyName, StringJson)),
        "cnpj", OptJson(d.cnpj, StringJson)))
  }

  /** `ClientUpdateSchema.parse(body)`. */
  function ParseUpdate(body: JsonValue): (r: Option<ClientUpdateRequest>)
    ensures r.Some? ==> body.JObject? && UpdateAccepts(r.value)
    ensures r.Some? ==>
              && Field(body, "code") == OptJson(r.value.code, NumberJson)
              && Field(body, "nickname") == OptJson(r.value.nickname, StringJson)
              && Field(body, "companyName") == OptJson(r.value.companyName, StringJson)
              && Field(body, "cnpj") == OptJson(r.value.cnpj, StringJson)
  {
    if !body.JObject? then None
    else
      var code := Optional(Field(body, "code"), Num);
      var nickname := Optional(Field(body, "nickname"), v => StrMin(v, 1));
      var companyName := Optional(Field(body, "companyName"), v => StrMin(v, 1));
      var cnpj := Optional(Field(body, "cnpj"), v => StrLength(v, 14));
      if code.Some? && nickname.Some? && companyName.Some? && cnpj.Some? then
        var d := ClientUpdateRequest(code.value, nickname.value, companyName.value, cnpj.value);
        if UpdateNonEmpty(d) then Some(d) else None
      else None
  }

  lemma UpdateRoundTrip(d: ClientUpdateRequest)
    requires UpdateAccepts(d)
    ensures ParseUpdate(UpdateJson(d)) == Some(d)
  {
  }

  /** An empty update body is refused by the refinement. */
  lemma UpdateRefusesEmptyBody()
    ensures ParseUpdate(JObject(map[])).None?
  {
  }

  /** `register(req, res)` */
  function Register(body: JsonValue, register: ClientCreationRequest -> Result<Client>): (x: Exchange<ClientCreationRequest, Client>)
    ensures x.call == ParseRegister(body)
    ensures x.call.None? ==> x.response == Response(400, ValidationFailed)
    ensures x.response.status == 201 <==> x.call.Some? && register(x.call.value).Ok?
    ensures x.response.status == 201 ==> x.response.body == Entity(register(x.call.value).value)
    ensures x.response.status == 201 || x.response.status == 400
    ensures x.call.Some? && register(x.call.value).Err? ==> x.response.body == Error(register(x.call.value).message)
  {
    var data := ParseRegister(body);
    if data.None? then Exchange(None, Response(400, ValidationFailed))
    else
      match register(data.value)
      case Ok(client) => Exchange(data, Response(201, Entity(client)))
      case Err(m) => Exchange(data, Response(400, Error(m)))
  }

  /** `getById(req, res)` */
  function GetById(id: Opt<string>, getById: JsInt -> Result<Option<Client>>): (x: Exchange<JsInt, Client>)
    ensures x.call == ParseId(id)
    ensures x.call.None? ==> x.response == Response(400, ValidationFailed)
    ensures x.call.Some? && getById(x.call.value) == Ok(None) ==> x.response == Response(404, Error(ClientNotFoundBody))
    ensures x.response.status == 200 <==> x.call.Some? && getById(x.call.value).Ok? && getById(x.call.value).value.Some?
    ensures x.response.status == 200 ==> x.response.body == Entity(getById(x.call.value).value.value)
    ensures x.call.Some? && getById(x.call.value).Err? ==> x.response == Response(500, Error(getById(x.call.value).message))
  {
    var k := ParseId(id);
    if k.None? then Exchange(None, Response(400, ValidationFailed))
    else
      match getById(k.value)
      case Ok(found) =>
        if found.None? then Exchange(k, Response(404, Error(ClientNotFoundBody)))
        else Exchange(k, Response(200, Entity(found.value)))
      case Err(m) => Exchange(k, Response(500, Error(m)))
  }

  /** `getAll(req, res)` */
  function GetAll(all: Result<seq<Client>>): (r: Response<seq<Client>>)
    ensures r.status == 200 <==> all.Ok?
    ensures all.Ok? ==> r.body == Entity(all.value)
    ensures all.Err? ==> r == Response(500, Error(all.message))
  {
    match all
    case Ok(clients) => Response(200, Entity(clients))
    case Err(m) => Response(500, Error(m))
  }

  /** `update(req, res)`: the id is parsed before the body. */
  function Update(id: Opt<string>, body: JsonValue, update: (JsInt, ClientUpdateRequest) -> Result<Client>)
    : (x: Exchange<(JsInt, ClientUpdateRequest), Client>)
    ensures x.call.Some? <==> ParseId(id).Some? && ParseUpdate(body).Some?
    ensures x.call.Some? ==> x.call.value == (ParseId(id).value, ParseUpdate(body).value)
    ensures x.call.None? ==> x.response == Response(400, ValidationFailed)
    ensures x.response.status == 200 <==> x.call.Some? && update(x.call.value.0, x.call.value.1).Ok?
    ensures x.response.status == 200 ==>
              x.response.body == EntityWithMessage(update(x.call.value.0, x.call.value.1).value, ClientUpdated)
    ensures x.call.Some? && update(x.call.value.0, x.call.value.1).Err? ==>
              x.response == Response(404, Error(update(x.call.value.0, x.call.value.1).message))
  {
    var k := ParseId(id);
    if k.None? then Exchange(None, Response(400, ValidationFailed))
    else
      var data := ParseUpdate(body);
      if data.None? then Exchange(None, Response(400, ValidationFailed))
      else
        match update(k.value, data.value)
        case Ok(client) => Exchange(Some((k.value, data.value)), Response(200, EntityWithMessage(client, ClientUpdated)))
        case Err(m) => Exchange(Some((k.value, data.value)), Response(404, Error(m)))
  }

  /** `delete(req, res)` */
  function Delete(id: Opt<string>, delete: JsInt -> Result<()>): (x: Exchange<JsInt, ()>)
    ensures x.call == ParseId(id)
    ensures x.call.None? ==> x.response == Response(400, ValidationFailed)
    ensures x.response.status == 204 <==> x.call.Some? && delete(x.call.value).Ok?
    ensures x.response.status == 204 ==> x.response.body == NoContent
    ensures x.call.Some? && delete(x.call.value).Err? ==> x.response == Response(404, Error(delete(x.call.value).message))
  {
    var k := ParseId(id);
    if k.None? then Exchange(None, Response(400, ValidationFailed))
    else
      match delete(k.value)
      case Ok(_) => Exchange(k, Response(204, NoContent))
      case Err(m) => Exchange(k, Response(404, Error(m)))
  }
}
