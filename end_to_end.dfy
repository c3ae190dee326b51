/** Requests followed from the controller through the service to the table:
    each lemma fixes the service a handler calls to the service operation
    over a given table and states what the client sees and what the table
    becomes. */
module Api {
  import opened Js
  import opened Numbers
  import opened Json
  import opened Models
  import opened Store
  import opened Http
  import Zod
  import ClientServices
  import ServiceServices
  import UserServices
  import ContractServices
  import ClientControllers
  import ServiceControllers
  import UserControllers
  import ContractControllers

  /** Registering a client whose CNPJ is already stored answers 400 with the
      service's message, and the table is left as it was. */
  lemma DuplicateCnpjRegister(t: Table<Client>, d: ClientServices.ClientCreationRequest)
    requires ClientServices.Consistent(t)
    requires ClientControllers.RegisterAccepts(d) && ClientServices.CnpjTaken(t.rows, d.cnpj)
    ensures ClientControllers.Register(ClientControllers.RegisterJson(d), req => ClientServices.RegisterStep(t, req).result)
            == Exchange(Some(d), Response(400, Error(ClientServices.CnpjExists)))
    ensures ClientServices.RegisterStep(t, d).table == t
  {
    ClientControllers.RegisterRoundTrip(d);
  }

  /** Registering a client with a fresh CNPJ and a fresh (or no) code answers
      201 with the stored client, which received the next id. */
  lemma FreshClientRegister(t: Table<Client>, d: ClientServices.ClientCreationRequest)
    requires ClientServices.Consistent(t) && ClientControllers.RegisterAccepts(d)
    requires !ClientServices.CnpjTaken(t.rows, d.cnpj)
    requires ClientServices.CodeOrNull(d.code).None? || !ClientServices.CodeTaken(t.rows, ClientServices.CodeOrNull(d.code).value)
    ensures var s := ClientServices.RegisterStep(t, d);
            && ClientControllers.Register(ClientControllers.RegisterJson(d), req => ClientServices.RegisterStep(t, req).result)
               == Exchange(Some(d), Response(201, Entity(s.result.value)))
            && s.result.value.id == Some(t.nextId)
            && s.table.rows[t.nextId] == s.result.value
            && ClientServices.Consistent(s.table)
  {
    ClientControllers.RegisterRoundTrip(d);
  }

  /** In a validated client update every string property that is present is
      non-empty, so the service's truthiness tests amount to presence. */
  lemma ValidatedClientUpdateTruthy(body: JsonValue)
    requires ClientControllers.ParseUpdate(body).Some?
    ensures var d := ClientControllers.ParseUpdate(body).value;
            && (SuppliedString(d.nickname) <==> d.nickname.Defined?)
            && (SuppliedString(d.companyName) <==> d.companyName.Defined?)
            && (SuppliedString(d.cnpj) <==> d.cnpj.Defined?)
  {
  }

  /** The schema demands a positive default price, so a validated creation
      request stores its price exactly when it carries one: the zero price
      that `create` would turn into null never reaches it. */
  lemma ValidatedServicePriceKept(body: JsonValue)
    requires ServiceControllers.ParseCreate(body).Some?
    ensures var d := ServiceControllers.ParseCreate(body).value;
            NumberOrNull(d.defaultPrice) == if d.defaultPrice.Defined? then Some(d.defaultPrice.value) else None
  {
  }

  /** `GET /users/n` answers 200 with the user's id, e-mail and role and an
      empty password hash, or 404 when there is no such user. */
  lemma UserLookup(t: Table<User>, n: nat)
    requires UserServices.Consistent(t)
    ensures var x := UserControllers.GetById(
              Defined(DecimalString(n)),
              (k: JsInt) => Ok(if k.Int? then UserServices.Lookup(t, k.value) else None));
            && x.call == Some(Int(n))
            && (n in t.rows ==>
                  x.response.status == 200
                  && x.response.body.Entity?
                  && x.response.body.value.passwordHash == ""
                  && x.response.body.value.email == t.rows[n].email
                  && x.response.body.value.role == EMPLOYEE)
            && (n !in t.rows ==> x.response == Response(404, Error(UserControllers.UserNotFoundBody)))
  {
    IdOfDecimal(n);
  }

  /** Registering a user with a fresh e-mail answers 201 with the new id, the
      e-mail and the EMPLOYEE role, and nothing else. */
  lemma FreshUserRegister(t: Table<User>, d: UserServices.UserCreationRequest, isEmail: string -> bool)
    requires UserServices.Consistent(t)
    requires isEmail(d.email) && 6 <= Zod.Utf16Length(d.password) && !UserServices.EmailTaken(t.rows, d.email)
    ensures UserControllers.Register(
              UserControllers.CredentialsJson(d.email, d.password), isEmail,
              req => UserServices.RegisterStep(t, req).result)
            == Exchange(Some(d), Response(201, Entity(UserControllers.PublicUser(Some(t.nextId), d.email, EMPLOYEE))))
  {
    UserControllers.RegisterRoundTrip(d, isEmail);
  }

  /** `PUT /contracts/n` with `{}` reaches the service, which writes the
      contract back unchanged and answers 200 with it; an unknown id is 404. */
  lemma EmptyContractUpdate(t: Table<Contract>, n: nat, coerce: JsonValue -> Option<Date>)
    requires ContractServices.Consistent(t)
    ensures var x := ContractControllers.Update(
              Defined(DecimalString(n)), JObject(map[]), coerce,
              (k: JsInt, p: ContractServices.ContractPatch) => if k.Int? then ContractServices.UpdateStep(t, k.value, p).result else Err(ContractServices.ContractNotFound));
            && x.call == Some((Int(n), ContractControllers.NoChange()))
            && (n in t.rows ==> x.response == Response(200, Entity(t.rows[n])))
            && (n !in t.rows ==> x.response == Response(404, Error(ContractServices.ContractNotFound)))
    ensures ContractServices.UpdateStep(t, n, ContractControllers.NoChange()).table == t
  {
    IdOfDecimal(n);
    ContractControllers.UpdateAcceptsEmptyBody(coerce);
    var f := (k: JsInt, p: ContractServices.ContractPatch) =>
      if k.Int? then ContractServices.UpdateStep(t, k.value, p).result else Err(ContractServices.ContractNotFound);
    var x := ContractControllers.Update(Defined(DecimalString(n)), JObject(map[]), coerce, f);
    assert x.call == Some((Int(n), ContractControllers.NoChange()));
    var s := ContractServices.UpdateStep(t, n, ContractControllers.NoChange());
    assert f(Int(n), ContractControllers.NoChange()) == s.result;
    if n in t.rows {
      assert s.result.value == t.rows[n];
      t.PutSame(n);
    }
  }

  /** Deleting a stored service answers 204 and removes exactly that row;
      deleting it again answers 404 with the service's message. */
  lemma DeleteServiceTwice(t: Table<Service>, n: nat)
    requires ServiceServices.Consistent(t) && n in t.rows
    ensures var s := DeleteStep(t, n, ServiceServices.ServiceNotFound);
            && ServiceControllers.Delete(Defined(DecimalString(n)), (k: JsInt) => if k.Int? then DeleteStep(t, k.value, ServiceServices.ServiceNotFound).result else Err(ServiceServices.ServiceNotFound))
               == Exchange(Some(Int(n)), Response(204, NoContent))
            && s.table.rows == t.rows - {n}
            && ServiceControllers.Delete(Defined(DecimalString(n)), (k: JsInt) => if k.Int? then DeleteStep(s.table, k.value, ServiceServices.ServiceNotFound).result else Err(ServiceServices.ServiceNotFound))
               == Exchange(Some(Int(n)), Response(404, Error(ServiceServices.ServiceNotFound)))
  {
    IdOfDecimal(n);
  }
}
