/** `ClientService`: registration with a unique CNPJ and a unique non-null
    code, lookups, partial update and delete over the client table. */
module ClientServices {
  import opened Js
  import opened Models
  import opened Store

  const CnpjExists := "Client with this CNPJ already exists."
  const CodeExists := "Client with this Code already exists."
  const ClientNotFound := "Client not found."
  const CnpjInUse := "CNPJ is already in use by another client."
  const CodeInUse := "Code is already in use by another client."

  /** `ClientCreationRequest`; `code?: number | null` is Undefined, Defined(None) or Defined(Some(n)). */
  datatype ClientCreationRequest = ClientCreationRequest(code: Opt<Option<real>>, nickname: string, companyName: string, cnpj: string)

  /** `ClientUpdateRequest`: every field optional. */
  datatype ClientUpdateRequest = ClientUpdateRequest(code: Opt<real>, nickname: Opt<string>, companyName: Opt<string>, cnpj: Opt<string>)

  /** `data.code || null` on a creation request: absent, null and 0 all become null. */
  function CodeOrNull(code: Opt<Option<real>>): (r: Option<real>)
    ensures r.Some? ==> r.value != 0.0 && code == Defined(Some(r.value))
    ensures r.None? ==> code == Undefined || code == Defined(None) || code == Defined(Some(0.0))
  {
    if code.Defined? && code.value.Some? && TruthyNumber(code.value.value) then code.value else None
  }

  /** `findByCnpj(cnpj)` finds a row. */
  predicate CnpjTaken(rows: map<int, Client>, cnpj: string) {
    exists k :: k in rows && rows[k].cnpj == cnpj
  }

  /** `findByCode(code)` finds a row. */
  predicate CodeTaken(rows: map<int, Client>, code: real) {
    exists k :: k in rows && rows[k].code == Some(code)
  }

  ghost predicate CnpjUnique(rows: map<int, Client>) {
    forall i, j :: i in rows && j in rows && rows[i].cnpj == rows[j].cnpj ==> i == j
  }

  ghost predicate CodesUnique(rows: map<int, Client>) {
    forall i, j :: i in rows && j in rows && rows[i].code.Some? && rows[i].code == rows[j].code ==> i == j
  }

  /** The client table's invariant: every row carries its own id, no two
      clients share a CNPJ, and no two share a non-null code. */
  ghost predicate Consistent(t: Table<Client>) {
    && t.Valid()
    && (forall k :: k in t.rows ==> t.rows[k].id == Some(k))
    && CnpjUnique(t.rows)
    && CodesUnique(t.rows)
  }

  /** `register(data)`. */
  function RegisterStep(t: Table<Client>, data: ClientCreationRequest): (s: Step<Client, Client>)
    requires t.Valid()
    ensures s.table.Valid()
    ensures CnpjTaken(t.rows, data.cnpj) ==> s == Step(Err(CnpjExists), t)
    ensures !CnpjTaken(t.rows, data.cnpj) && CodeOrNull(data.code).Some? && CodeTaken(t.rows, CodeOrNull(data.code).value)
            ==> s == Step(Err(CodeExists), t)
    ensures s.result.Ok? <==>
            !CnpjTaken(t.rows, data.cnpj) && !(CodeOrNull(data.code).Some? && CodeTaken(t.rows, CodeOrNull(data.code).value))
    ensures s.result.Ok? ==>
            && t.nextId !in t.rows
            && s.result.value == Client(Some(t.nextId), CodeOrNull(data.code), data.nickname, data.companyName, data.cnpj)
            && s.table.rows == t.rows[t.nextId := s.result.value]
    ensures Consistent(t) ==> Consistent(s.table)
  {
    if CnpjTaken(t.rows, data.cnpj) then Step(Err(CnpjExists), t)
    else if CodeOrNull(data.code).Some? && CodeTaken(t.rows, CodeOrNull(data.code).value) then Step(Err(CodeExists), t)
    else
      var c := Client(Some(t.nextId), CodeOrNull(data.code), data.nickname, data.companyName, data.cnpj);
      Step(Ok(c), t.Insert(c))
  }

  /** `data.cnpj && data.cnpj !== client.cnpj` */
  predicate ChangesCnpj(c: Client, data: ClientUpdateRequest) {
    SuppliedString(data.cnpj) && data.cnpj.value != c.cnpj
  }

  /** `data.code !== undefined && data.code !== client.code` */
  predicate ChangesCode(c: Client, data: ClientUpdateRequest) {
    data.code.Defined? && Some(data.code.value) != c.code
  }

  /** `update(id, data)`. */
  function UpdateStep(t: Table<Client>, id: int, data: ClientUpdateRequest): (s: Step<Client, Client>)
    requires t.Valid()
    ensures s.table.Valid()
    ensures id !in t.rows ==> s == Step(Err(ClientNotFound), t)
    ensures s.result.Err? ==> s.table == t
    ensures id in t.rows && ChangesCnpj(t.rows[id], data) && CnpjTaken(t.rows, data.cnpj.value)
            ==> s.result == Err(CnpjInUse)
    ensures id in t.rows && !(ChangesCnpj(t.rows[id], data) && CnpjTaken(t.rows, data.cnpj.value))
            && ChangesCode(t.rows[id], data) && CodeTaken(t.rows, data.code.value)
            ==> s.result == Err(CodeInUse)
    ensures s.result.Ok? <==>
            && id in t.rows
            && !(ChangesCnpj(t.rows[id], data) && CnpjTaken(t.rows, data.cnpj.value))
            && !(ChangesCode(t.rows[id], data) && CodeTaken(t.rows, data.code.value))
    ensures s.result.Ok? ==>
            var c, u := t.rows[id], s.result.value;
            && s.table == t.Put(id, u)
            && u.id == c.id
            && u.cnpj == (if SuppliedString(data.cnpj) then data.cnpj.value else c.cnpj)
            && u.code == (if data.code.Defined? then Some(data.code.value) else c.code)
            && u.nickname == (if SuppliedString(data.nickname) then data.nickname.value else c.nickname)
            && u.companyName == (if SuppliedString(data.companyName) then data.companyName.value else c.companyName)
    ensures Consistent(t) ==> Consistent(s.table)
  {
    if id !in t.rows then Step(Err(ClientNotFound), t)
    else
      var c := t.rows[id];
      if ChangesCnpj(c, data) && CnpjTaken(t.rows, data.cnpj.value) then Step(Err(CnpjInUse), t)
      else if ChangesCode(c, data) && CodeTaken(t.rows, data.code.value) then Step(Err(CodeInUse), t)
      else
        var u := Client(
          c.id,
          if data.code.Defined? then Some(data.code.value) else c.code,
          if SuppliedString(data.nickname) then data.nickname.value else c.nickname,
          if SuppliedString(data.companyName) then data.companyName.value else c.companyName,
          if SuppliedString(data.cnpj) then data.cnpj.value else c.cnpj);
        assert Consistent(t) ==> Consistent(t.Put(id, u)) by {
          if Consistent(t) {
            PutKeepsConsistent(t, id, u);
          }
        }
        Step(Ok(u), t.Put(id, u))
  }

  /** Overwriting a row keeps the table consistent when the new CNPJ and the
      new code are either the row's own or held by no client. */
  lemma PutKeepsConsistent(t: Table<Client>, id: int, u: Client)
    requires Consistent(t) && id in t.rows && u.id == Some(id)
    requires u.cnpj == t.rows[id].cnpj || !CnpjTaken(t.rows, u.cnpj)
    requires u.code == t.rows[id].code || u.code.None? || !CodeTaken(t.rows, u.code.value)
    ensures Consistent(t.Put(id, u))
  {
  }

  class ClientService {
    /** The client table behind the repository. */
    var clients: Table<Client>

    ghost predicate Valid()
      reads this
    {
      Consistent(clients)
    }

    constructor ()
      ensures Valid() && clients == Empty()
    {
      clients := Empty();
    }

    /** `getById(id)`: the stored client, or null. */
    function GetById(id: int): (r: Option<Client>)
      reads this
      requires Valid()
      ensures r.Some? <==> id in clients.rows
      ensures r.Some? ==> r.value == clients.rows[id] && r.value.id == Some(id)
    {
      if id in clients.rows then Some(clients.rows[id]) else None
    }

    /** `getAll()`: every stored client, in id order. */
    function GetAll(): (r: seq<Client>)
      reads this
      requires Valid()
      ensures forall k :: k in clients.rows ==> clients.rows[k] in r
      ensures forall i :: 0 <= i < |r| ==> r[i].id.Some? && r[i].id.value in clients.rows && clients.rows[r[i].id.value] == r[i]
      ensures forall i, j :: 0 <= i < j < |r| ==> r[i].id.value < r[j].id.value
    {
      clients.Values()
    }

    /** `clientRepository.save(client)`: a client without an id is inserted
        under the next id; one with an id overwrites that row. */
    method Save(client: Client) returns (saved: Client)
      requires clients.Valid()
      modifies this
      ensures clients.Valid()
      ensures client.id.None? ==>
                saved == client.(id := Some(old(clients.nextId))) && clients == old(clients).Insert(saved)
      ensures client.id.Some? ==>
                saved == client
                && clients == if client.id.value in old(clients.rows) then old(clients).Put(client.id.value, client) else old(clients)
    {
      if client.id.None? {
        saved := client.(id := Some(clients.nextId));
        clients := clients.Insert(saved);
      } else {
        saved := client;
        if client.id.value in clients.rows {
          clients := clients.Put(client.id.value, client);
        }
      }
    }

    method Register(data: ClientCreationRequest) returns (r: Result<Client>)
      requires Valid()
      modifies this
      ensures Valid()
      ensures Step(r, clients) == RegisterStep(old(clients), data)
    {
      if CnpjTaken(clients.rows, data.cnpj) {
        return Err(CnpjExists);
      }
      if data.code.Defined? && data.code.value.Some? && TruthyNumber(data.code.value.value) {
        if CodeTaken(clients.rows, data.code.value.value) {
          return Err(CodeExists);
        }
      }
      var client := Client(None, CodeOrNull(data.code), data.nickname, data.companyName, data.cnpj);
      var saved := Save(client);
      r := Ok(saved);
    }

    method Update(id: int, data: ClientUpdateRequest) returns (r: Result<Client>)
      requires Valid()
      modifies this
      ensures Valid()
      ensures Step(r, clients) == UpdateStep(old(clients), id, data)
    {
      var found := GetById(id);
      if found.None? {
        return Err(ClientNotFound);
      }
      var client := found.value;
      ghost var c := client;
      if data.cnpj.Defined? && data.cnpj.value != "" && data.cnpj.value != client.cnpj {
        if CnpjTaken(clients.rows, data.cnpj.value) {
          return Err(CnpjInUse);
        }
        client := client.(cnpj := data.cnpj.value);
      }
      assert client == c.(cnpj := if SuppliedString(data.cnpj) then data.cnpj.value else c.cnpj);
      if data.code.Defined? && Some(data.code.value) != client.code {
        if CodeTaken(clients.rows, data.code.value) {
          return Err(CodeInUse);
        }
        client := client.(code := Some(data.code.value));
      }
      if data.nickname.Defined? && data.nickname.value != "" {
        client := client.(nickname := data.nickname.value);
      }
      if data.companyName.Defined? && data.companyName.value != "" {
        client := client.(companyName := data.companyName.value);
      }
      assert UpdateStep(clients, id, data) == Step(Ok(client), clients.Put(id, client));
      var saved := Save(client);
      r := Ok(saved);
    }

    method Delete(id: int) returns (r: Result<()>)
      requires Valid()
      modifies this
      ensures Valid()
      ensures Step(r, clients) == DeleteStep(old(clients), id, ClientNotFound)
    {
      if id !in clients.rows {
        return Err(ClientNotFound);
      }
      clients := clients.Remove(id);
      r := Ok(());
    }
  }
}
