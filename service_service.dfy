/** `ServiceService`: the catalogue of services, with a unique service code
    and an optional default price. */
module ServiceServices {
  import opened Js
  import opened Models
  import opened Store

  const CodeExists := "Service with this code already exists."
  const ServiceNotFound := "Service not found."
  const CodeInUse := "Service code already in use."

  datatype ServiceCreationRequest = ServiceCreationRequest(name: string, code: string, defaultPrice: Opt<real>)

  datatype ServiceUpdateRequest = ServiceUpdateRequest(name: Opt<string>, code: Opt<string>, defaultPrice: Opt<real>)

  /** `findByCode(code)` finds a row. */
  predicate CodeTaken(rows: map<int, Service>, code: string) {
    exists k :: k in rows && rows[k].code == code
  }

  ghost predicate CodesUnique(rows: map<int, Service>) {
    forall i, j :: i in rows && j in rows && rows[i].code == rows[j].code ==> i == j
  }

  /** The service table's invariant: every row carries its own id and no two
      services share a code. */
  ghost predicate Consistent(t: Table<Service>) {
    && t.Valid()
    && (forall k :: k in t.rows ==> t.rows[k].id == Some(k))
    && CodesUnique(t.rows)
  }

  /** `create(data)`. */
  function CreateStep(t: Table<Service>, data: ServiceCreationRequest): (s: Step<Service, Service>)
    requires t.Valid()
    ensures s.table.Valid()
    ensures s.result.Err? <==> CodeTaken(t.rows, data.code)
    ensures s.result.Err? ==> s == Step(Err(CodeExists), t)
    ensures s.result.Ok? ==>
            && t.nextId !in t.rows
            && s.result.value == Service(Some(t.nextId), data.name, data.code, NumberOrNull(data.defaultPrice))
            && s.table.rows == t.rows[t.nextId := s.result.value]
    ensures Consistent(t) ==> Consistent(s.table)
  {
    if CodeTaken(t.rows, data.code) then Step(Err(CodeExists), t)
    else
      var v := Service(Some(t.nextId), data.name, data.code, NumberOrNull(data.defaultPrice));
      Step(Ok(v), t.Insert(v))
  }

  /** `data.code && data.code !== service.code` */
  predicate ChangesCode(v: Service, data: ServiceUpdateRequest) {
    SuppliedString(data.code) && data.code.value != v.code
  }

  /** `update(id, data)`. */
  function UpdateStep(t: Table<Service>, id: int, data: ServiceUpdateRequest): (s: Step<Service, Service>)
    requires t.Valid()
    ensures s.table.Valid()
    ensures id !in t.rows ==> s == Step(Err(ServiceNotFound), t)
    ensures s.result.Err? ==> s.table == t
    ensures id in t.rows && ChangesCode(t.rows[id], data) && CodeTaken(t.rows, data.code.value)
            ==> s.result == Err(CodeInUse)
    ensures s.result.Ok? <==>
            id in t.rows && !(ChangesCode(t.rows[id], data) && CodeTaken(t.rows, data.code.value))
    ensures s.result.Ok? ==>
            var v, u := t.rows[id], s.result.value;
            && s.table == t.Put(id, u)
            && u.id == v.id
            && u.code == (if SuppliedString(data.code) then data.code.value else v.code)
            && u.name == (if SuppliedString(data.name) then data.name.value else v.name)
            && u.defaultPrice == (if data.defaultPrice.Defined? then Some(data.defaultPrice.value) else v.defaultPrice)
    ensures Consistent(t) ==> Consistent(s.table)
  {
    if id !in t.rows then Step(Err(ServiceNotFound), t)
    else
      var v := t.rows[id];
      if ChangesCode(v, data) && CodeTaken(t.rows, data.code.value) then Step(Err(CodeInUse), t)
      else
        var u := Service(
          v.id,
          if SuppliedString(data.name) then data.name.value else v.name,
          if SuppliedString(data.code) then data.code.value else v.code,
          if data.defaultPrice.Defined? then Some(data.defaultPrice.value) else v.defaultPrice);
        Step(Ok(u), t.Put(id, u))
  }

  /** Creation and update treat a zero price differently: `create` stores
      `defaultPrice || null`, so 0 becomes null, while `update` stores any
      price that is not undefined, 0 included. */
  lemma ZeroPriceAsymmetry(t: Table<Service>, id: int, name: string, code: string)
    requires Consistent(t) && id in t.rows && !CodeTaken(t.rows, code)
    ensures CreateStep(t, ServiceCreationRequest(name, code, Defined(0.0))).result.value.defaultPrice == None
    ensures UpdateStep(t, id, ServiceUpdateRequest(Undefined, Undefined, Defined(0.0))).result.value.defaultPrice == Some(0.0)
  {
  }

  class ServiceService {
    /** The service table behind the repository. */
    var services: Table<Service>

    ghost predicate Valid()
      reads this
    {
      Consistent(services)
    }

    constructor ()
      ensures Valid() && services == Empty()
    {
      services := Empty();
    }

    /** `getById(id)`: the stored service, or null. */
    function GetById(id: int): (r: Option<Service>)
      reads this
      requires Valid()
      ensures r.Some? <==> id in services.rows
      ensures r.Some? ==> r.value == services.rows[id] && r.value.id == Some(id)
    {
      if id in services.rows then Some(services.rows[id]) else None
    }

    /** `getAll()`: every stored service, in id order. */
    function GetAll(): (r: seq<Service>)
      reads this
      requires Valid()
      ensures forall k :: k in services.rows ==> services.rows[k] in r
      ensures forall i :: 0 <= i < |r| ==> r[i].id.Some? && r[i].id.value in services.rows && services.rows[r[i].id.value] == r[i]
      ensures forall i, j :: 0 <= i < j < |r| ==> r[i].id.value < r[j].id.value
    {
      services.Values()
    }

    /** `serviceRepository.save(service)`: a service without an id is inserted
        under the next id; one with an id overwrites that row. */
    method Save(service: Service) returns (saved: Service)
      requires services.Valid()
      modifies this
      ensures services.Valid()
      ensures service.id.None? ==>
                saved == service.(id := Some(old(services.nextId))) && services == old(services).Insert(saved)
      ensures service.id.Some? ==>
                saved == service
                && services == if service.id.value in old(services.rows) then old(services).Put(service.id.value, service) else old(services)
    {
      if service.id.None? {
        saved := service.(id := Some(services.nextId));
        services := services.Insert(saved);
      } else {
        saved := service;
        if service.id.value in services.rows {
          services := services.Put(service.id.value, service);
        }
      }
    }

    method Create(data: ServiceCreationRequest) returns (r: Result<Service>)
      requires Valid()
      modifies this
      ensures Valid()
      ensures Step(r, services) == CreateStep(old(services), data)
    {
      if CodeTaken(services.rows, data.code) {
        return Err(CodeExists);
      }
      var service := Service(None, data.name, data.code, NumberOrNull(data.defaultPrice));
      var saved := Save(service);
      r := Ok(saved);
    }

    method Update(id: int, data: ServiceUpdateRequest) returns (r: Result<Service>)
      requires Valid()
      modifies this
      ensures Valid()
      ensures Step(r, services) == UpdateStep(old(services), id, data)
    {
      var found := GetById(id);
      if found.None? {
        return Err(ServiceNotFound);
      }
      var service := found.value;
      if data.code.Defined? && data.code.value != "" && data.code.value != service.code {
        if CodeTaken(services.rows, data.code.value) {
          return Err(CodeInUse);
        }
        service := service.(code := data.code.value);
      }
      if data.name.Defined? && data.name.value != "" {
        service := service.(name := data.name.value);
      }
      if data.defaultPrice.Defined? {
        service := service.(defaultPrice := Some(data.defaultPrice.value));
      }
      assert UpdateStep(services, id, data) == Step(Ok(service), services.Put(id, service));
      var saved := Save(service);
      r := Ok(saved);
    }

    method Delete(id: int) returns (r: Result<()>)
      requires Valid()
      modifies this
      ensures Valid()
      ensures Step(r, services) == DeleteStep(old(services), id, ServiceNotFound)
    {
      if id !in services.rows {
        return Err(ServiceNotFound);
      }
      services := services.Remove(id);
      r := Ok(());
    }
  }
}
