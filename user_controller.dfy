/** `UserController`: registration, login, lookups, update and delete of
    users, with zod validation and a fixed status for each outcome. */
module UserControllers {
  import opened Js
  import opened Numbers
  import opened Json
  import opened Zod
  import opened Models
  import opened Http
  import opened UserServices

  const UserNotFoundBody := "User not found"
  const UserUpdated := "User updated successfully"

  /** `{ id, email, role }`: what `register` answers with, never the password. */
  datatype PublicUser = PublicUser(id: Option<int>, email: string, role: RoleUser)

  /** The login form, `UserAuthSchema`. */
  datatype Credentials = Credentials(email: string, password: string)

  function StringJson(s: string): JsonValue {
    JString(s)
  }

  /** The body `{ email, password }` a client sends to register or log in. */
  function CredentialsJson(email: string, password: string): JsonValue {
    JObject(map["email" := JString(email), "password" := JString(password)])
  }

  /** `UserRegisterSchema.parse(body)`: an e-mail address and a password of
      at least six characters. */
  function ParseRegister(body: JsonValue, isEmail: string -> bool): (r: Option<UserCreationRequest>)
    ensures r.Some? ==> body.JObject? && isEmail(r.value.email) && 6 <= Utf16Length(r.value.password)
    ensures r.Some? ==>
              Field(body, "email") == Defined(JString(r.value.email))
              && Field(body, "password") == Defined(JString(r.value.password))
  {
    if !body.JObject? then None
    else
      var email := Email(Field(body, "email"), isEmail);
      var password := StrMin(Field(body, "password"), 6);
      if email.Some? && password.Some? then Some(UserCreationRequest(email.value, password.value)) else None
  }

  lemma RegisterRoundTrip(d: UserCreationRequest, isEmail: string -> bool)
    requires isEmail(d.email) && 6 <= Utf16Length(d.password)
    ensures ParseRegister(CredentialsJson(d.email, d.password), isEmail) == Some(d)
  {
  }

  lemma RegisterRefusesShortPassword(email: string, password: string, isEmail: string -> bool)
    requires Utf16Length(password) < 6
    ensures ParseRegister(CredentialsJson(email, password), isEmail).None?
  {
  }

  /** The password is measured in UTF-16 code units, as JavaScript's
      `length`: three characters outside the Basic Multilingual Plane make a
      password of six. */
  lemma RegisterAcceptsThreeAstralCharacters(email: string, isEmail: string -> bool)
    requires isEmail(email)
    ensures ParseRegister(CredentialsJson(email, "\U{1F600}\U{1F600}\U{1F600}"), isEmail)
            == Some(UserCreationRequest(email, "\U{1F600}\U{1F600}\U{1F600}"))
  {
    assert Utf16Length("\U{1F600}\U{1F600}\U{1F600}") == 6;
  }

  /** `UserAuthSchema.parse(body)`: an e-mail address and any password string. */
  function ParseLogin(body: JsonValue, isEmail: string -> bool): (r: Option<Credentials>)
    ensures r.Some? ==> body.JObject? && isEmail(r.value.email)
    ensures r.Some? ==>
              Field(body, "email") == Defined(JString(r.value.email))
              && Field(body, "password") == Defined(JString(r.value.password))
  {
    if !body.JObject? then None
    else
      var email := Email(Field(body, "email"), isEmail);
      var password := Str(Field(body, "password"));
      if email.Some? && password.Some? then Some(Credentials(email.value, password.value)) else None
  }

  lemma LoginRoundTrip(c: Credentials, isEmail: string -> bool)
    requires isEmail(c.email)
    ensures ParseLogin(CredentialsJson(c.email, c.password), isEmail) == Some(c)
  {
  }

  /** The refinement of `UserUpdateSchema`: a truthy e-mail or password. */
  predicate UpdateNonEmpty(d: UserUpdateRequest) {
    SuppliedString(d.email) || SuppliedString(d.password)
  }

  predicate UpdateAccepts(d: UserUpdateRequest, isEmail: string -> bool) {
    && (d.email.Defined? ==> isEmail(d.email.value))
    && (d.password.Defined? ==> 6 <= Utf16Length(d.password.value))
    && UpdateNonEmpty(d)
  }

  function UpdateJson(d: UserUpdateRequest): JsonValue {
    JObject(WithOptional(WithOptional(map[],
      "email", OptJson(d.email, StringJson)),
      "password", OptJson(d.password, StringJson)))
  }

  /** `UserUpdateSchema.parse(body)` */
  function ParseUpdate(body: JsonValue, isEmail: string -> bool): (r: Option<UserUpdateRequest>)
    ensures r.Some? ==> body.JObject? && UpdateAccepts(r.value, isEmail)
    ensures r.Some? ==>
              Field(body, "email") == OptJson(r.value.email, StringJson)
              && Field(body, "password") == OptJson(r.value.password, StringJson)
  {
    if !body.JObject? then None
    else
      var email := Optional(Field(body, "email"), v => Email(v, isEmail));
      var password := Optional(Field(body, "password"), v => StrMin(v, 6));
      if email.Some? && password.Some? then
        var d := UserUpdateRequest(email.value, password.value);
        if UpdateNonEmpty(d) then Some(d) else None
      else None
  }

  lemma UpdateRoundTrip(d: UserUpdateRequest, isEmail: string -> bool)
    requires UpdateAccepts(d, isEmail)
    ensures ParseUpdate(UpdateJson(d), isEmail) == Some(d)
  {
  }

  lemma UpdateRefusesEmptyBody(isEmail: string -> bool)
    ensures ParseUpdate(JObject(map[]), isEmail).None?
  {
  }

  /** `register(req, res)`: 201 with the new user's id, e-mail and role only. */
  function Register(body: JsonValue, isEmail: string -> bool, register: UserCreationRequest -> Result<User>)
    : (x: Exchange<UserCreationRequest, PublicUser>)
    ensures x.call == ParseRegister(body, isEmail)
    ensures x.call.None? ==> x.response == Response(400, ValidationFailed)
    ensures x.response.status == 201 <==> x.call.Some? && register(x.call.value).Ok?
    ensures x.response.status == 201 ==>
              var u := register(x.call.value).value;
              x.response.body == Entity(PublicUser(u.id, u.email, u.role))
    ensures x.response.status == 201 || x.response.status == 400
    ensures x.call.Some? && register(x.call.value).Err? ==> x.response.body == Error(register(x.call.value).message)
  {
    var data := ParseRegister(body, isEmail);
    if data.None? then Exchange(None, Response(400, ValidationFailed))
    else
      match register(data.value)
      case Ok(user) => Exchange(data, Response(201, Entity(PublicUser(user.id, user.email, user.role))))
      case Err(m) => Exchange(data, Response(400, Error(m)))
  }

  /** `login(req, res)`: 200 with whatever authentication returns; any
      failure other than validation is 401. */
  function Login<T>(body: JsonValue, isEmail: string -> bool, authenticate: Credentials -> Result<T>)
    : (x: Exchange<Credentials, T>)
    ensures x.call == ParseLogin(body, isEmail)
    ensures x.call.None? ==> x.response == Response(400, ValidationFailed)
    ensures x.response.status == 200 <==> x.call.Some? && authenticate(x.call.value).Ok?
    ensures x.response.status == 200 ==> x.response.body == Entity(authenticate(x.call.value).value)
    ensures x.call.Some? && authenticate(x.call.value).Err? ==> x.response == Response(401, Error(authenticate(x.call.value).message))
  {
    var data := ParseLogin(body, isEmail);
    if data.None? then Exchange(None, Response(400, ValidationFailed))
    else
      match authenticate(data.value)
      case Ok(result) => Exchange(data, Response(200, Entity(result)))
      case Err(m) => Exchange(data, Response(401, Error(m)))
  }

  /** `getById(req, res)` */
  function GetById(id: Opt<string>, getById: JsInt -> Result<Option<User>>): (x: Exchange<JsInt, User>)
    ensures x.call == ParseId(id)
    ensures x.call.None? ==> x.response == Response(400, ValidationFailed)
    ensures x.call.Some? && getById(x.call.value) == Ok(None) ==> x.response == Response(404, Error(UserNotFoundBody))
    ensures x.response.status == 200 <==> x.call.Some? && getById(x.call.value).Ok? && getById(x.call.value).value.Some?
    ensures x.response.status == 200 ==> x.response.body == Entity(getById(x.call.value).value.value)
    ensures x.call.Some? && getById(x.call.value).Err? ==> x.response == Response(500, Error(getById(x.call.value).message))
  {
    var k := ParseId(id);
    if k.None? then Exchange(None, Response(400, ValidationFailed))
    else
      match getById(k.value)
      case Ok(found) =>
        if found.None? then Exchange(k, Response(404, Error(UserNotFoundBody)))
        else Exchange(k, Response(200, Entity(found.value)))
      case Err(m) => Exchange(k, Response(500, Error(m)))
  }

  /** `getAll(req, res)` */
  function GetAll(all: Result<seq<User>>): (r: Response<seq<User>>)
    ensures r.status == 200 <==> all.Ok?
    ensures all.Ok? ==> r.body == Entity(all.value)
    ensures all.Err? ==> r == Response(500, Error(all.message))
  {
    match all
    case Ok(users) => Response(200, Entity(users))
    case Err(m) => Response(500, Error(m))
  }

  /** `update(req, res)`: the id is parsed before the body. */
  function Update(id: Opt<string>, body: JsonValue, isEmail: string -> bool, update: (JsInt, UserUpdateRequest) -> Result<User>)
    : (x: Exchange<(JsInt, UserUpdateRequest), User>)
    ensures x.call.Some? <==> ParseId(id).Some? && ParseUpdate(body, isEmail).Some?
    ensures x.call.Some? ==> x.call.value == (ParseId(id).value, ParseUpdate(body, isEmail).value)
    ensures x.call.None? ==> x.response == Response(400, ValidationFailed)
    ensures x.response.status == 200 <==> x.call.Some? && update(x.call.value.0, x.call.value.1).Ok?
    ensures x.response.status == 200 ==>
              x.response.body == EntityWithMessage(update(x.call.value.0, x.call.value.1).value, UserUpdated)
    ensures x.call.Some? && update(x.call.value.0, x.call.value.1).Err? ==>
              x.response == Response(404, Error(update(x.call.value.0, x.call.value.1).message))
  {
    var k := ParseId(id);
    if k.None? then Exchange(None, Response(400, ValidationFailed))
    else
      var data := ParseUpdate(body, isEmail);
      if data.None? then Exchange(None, Response(400, ValidationFailed))
      else
        match update(k.value, data.value)
        case Ok(user) => Exchange(Some((k.value, data.value)), Response(200, EntityWithMessage(user, UserUpdated)))
        case Err(m) => Exchange(Some((k.value, data.value)), Response(404, Error(m)))
  }

  /** `delete(req, res)` */
  function Delete(id: Opt<string>, delete: JsInt -> Result<()>): (x: Exchange<JsInt, ()>)
    ensures x.call == ParseId(id)
    ensures x.call.None? ==> x.response == Response(400, ValidationFailed)
    ensures x.response.status == 204 <==> x.call.Some? && delete(x.call.value).Ok?
    ensures x.response.status == 204 ==> x.response.body == NoContent
    ensures x.call.Some? && delete(x.call.value).Err? ==> x.response == Response(404, Error(delete(x.call.value).message))
  {
    var k := ParseId(id);
    if k.None? then Exchange(None, Response(400, ValidationFailed))
    else
      match delete(k.value)
      case Ok(_) => Exchange(k, Response(204, NoContent))
      case Err(m) => Exchange(k, Response(404, Error(m)))
  }
}
