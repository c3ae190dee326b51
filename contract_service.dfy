/** `ContractService`: contracts between a client and a service, with a
    contract code that creation keeps unique and a truthiness-based partial
    update. */
module ContractServices {
  import opened Js
  import opened Models
  import opened Store

  const CodeExists := "Contract with this code already exists."
  const ContractNotFound := "Contract not found."

  /** `ContractDTO`, as creation receives it. */
  datatype ContractData = ContractData(
    contractCode: string,
    clientId: real,
    serviceId: real,
    quantity: real,
    unitPrice: real,
    startDate: Date,
    endDate: Opt<Date>,
    status: ContractStatus,
    observation: Opt<string>)

  /** `Partial<ContractDTO>`, as update receives it. */
  datatype ContractPatch = ContractPatch(
    contractCode: Opt<string>,
    clientId: Opt<real>,
    serviceId: Opt<real>,
    quantity: Opt<real>,
    unitPrice: Opt<real>,
    startDate: Opt<Date>,
    endDate: Opt<Date>,
    status: Opt<ContractStatus>,
    observation: Opt<string>)

  /** `data.endDate || null`: a Date object is always truthy. */
  function DateOrNull(d: Opt<Date>): (r: Option<Date>)
    ensures r.Some? <==> d.Defined?
    ensures r.Some? ==> r.value == d.value
  {
    if d.Defined? then Some(d.value) else None
  }

  /** `findByCode(code)` finds a row. */
  predicate CodeTaken(rows: map<int, Contract>, code: string) {
    exists k :: k in rows && rows[k].contractCode == code
  }

  ghost predicate CodesUnique(rows: map<int, Contract>) {
    forall i, j :: i in rows && j in rows && rows[i].contractCode == rows[j].contractCode ==> i == j
  }

  /** The contract table's invariant: every row carries its own id. Code
      uniqueness is not part of it, because `update` as written does not keep it. */
  ghost predicate Consistent(t: Table<Contract>) {
    && t.Valid()
    && (forall k :: k in t.rows ==> t.rows[k].id == Some(k))
  }

  /** `create(data)`. */
  function CreateStep(t: Table<Contract>, data: ContractData): (s: Step<Contract, Contract>)
    requires t.Valid()
    ensures s.table.Valid()
    ensures s.result.Err? <==> CodeTaken(t.rows, data.contractCode)
    ensures s.result.Err? ==> s == Step(Err(CodeExists), t)
    ensures s.result.Ok? ==>
            && t.nextId !in t.rows
            && s.result.value == Contract(
                 Some(t.nextId), data.contractCode, data.clientId, data.serviceId, data.quantity, data.unitPrice,
                 data.startDate, DateOrNull(data.endDate), data.status, StringOrNull(data.observation))
            && s.table.rows == t.rows[t.nextId := s.result.value]
    ensures Consistent(t) ==> Consistent(s.table)
    ensures CodesUnique(t.rows) ==> CodesUnique(s.table.rows)
  {
    if CodeTaken(t.rows, data.contractCode) then Step(Err(CodeExists), t)
    else
      var c := Contract(
        Some(t.nextId), data.contractCode, data.clientId, data.serviceId, data.quantity, data.unitPrice,
        data.startDate, DateOrNull(data.endDate), data.status, StringOrNull(data.observation));
      Step(Ok(c), t.Insert(c))
  }

  /** The contract `update` writes back: contractCode, the two ids, quantity
      and unit price change only when the supplied value is truthy, start date
      and status whenever supplied; end date and observation whenever not
      undefined, a falsy observation becoming null. */
  function Patched(c: Contract, data: ContractPatch): (u: Contract)
    ensures u.id == c.id
    ensures u.contractCode == if SuppliedString(data.contractCode) then data.contractCode.value else c.contractCode
    ensures u.clientId == if SuppliedNumber(data.clientId) then data.clientId.value else c.clientId
    ensures u.serviceId == if SuppliedNumber(data.serviceId) then data.serviceId.value else c.serviceId
    ensures u.quantity == if SuppliedNumber(data.quantity) then data.quantity.value else c.quantity
    ensures u.unitPrice == if SuppliedNumber(data.unitPrice) then data.unitPrice.value else c.unitPrice
    ensures u.startDate == if data.startDate.Defined? then data.startDate.value else c.startDate
    ensures u.endDate == if data.endDate.Defined? then Some(data.endDate.value) else c.endDate
    ensures u.status == if data.status.Defined? then data.status.value else c.status
    ensures u.observation == if data.observation.Defined? then StringOrNull(data.observation) else c.observation
    ensures data == ContractPatch(Undefined, Undefined, Undefined, Undefined, Undefined, Undefined, Undefined, Undefined, Undefined)
            ==> u == c
  {
    var contractCode := if SuppliedString(data.contractCode) then data.contractCode.value else c.contractCode;
    var clientId := if SuppliedNumber(data.clientId) then data.clientId.value else c.clientId;
    var serviceId := if SuppliedNumber(data.serviceId) then data.serviceId.value else c.serviceId;
    var quantity := if SuppliedNumber(data.quantity) then data.quantity.value else c.quantity;
    var unitPrice := if SuppliedNumber(data.unitPrice) then data.unitPrice.value else c.unitPrice;
    var startDate := if data.startDate.Defined? then data.startDate.value else c.startDate;
    var endDate := if data.endDate.Defined? then DateOrNull(data.endDate) else c.endDate;
    var status := if data.status.Defined? then data.status.value else c.status;
    var observation := if data.observation.Defined? then StringOrNull(data.observation) else c.observation;
    Contract(c.id, contractCode, clientId, serviceId, quantity, unitPrice, startDate, endDate, status, observation)
  }

  /** `update(id, data)` as written: no uniqueness lookup on a new contract code. */
  function UpdateStep(t: Table<Contract>, id: int, data: ContractPatch): (s: Step<Contract, Contract>)
    requires t.Valid()
    ensures s.table.Valid()
    ensures s.result.Err? <==> id !in t.rows
    ensures s.result.Err? ==> s == Step(Err(ContractNotFound), t)
    ensures s.result.Ok? ==>
            && s.result.value == Patched(t.rows[id], data)
            && s.table == t.Put(id, s.result.value)
    ensures Consistent(t) ==> Consistent(s.table)
  {
    if id !in t.rows then Step(Err(ContractNotFound), t)
    else
      var u := Patched(t.rows[id], data);
      Step(Ok(u), t.Put(id, u))
  }

  /** A patch that only renames the contract code. */
  function CodeOnly(code: string): ContractPatch {
    ContractPatch(Defined(code), Undefined, Undefined, Undefined, Undefined, Undefined, Undefined, Undefined, Undefined)
  }

  /** Unlike `create`, `update` can break contract-code uniqueness: in any table
      with two contracts, giving one the (non-empty) code of the other succeeds,
      and two rows then share a code. */
  lemma UpdateBreaksCodeUniqueness(t: Table<Contract>, id: int, other: int)
    requires Consistent(t) && CodesUnique(t.rows)
    requires id in t.rows && other in t.rows && id != other
    requires t.rows[other].contractCode != ""
    ensures var s := UpdateStep(t, id, CodeOnly(t.rows[other].contractCode));
            s.result.Ok? && !CodesUnique(s.table.rows)
  {
    var s := UpdateStep(t, id, CodeOnly(t.rows[other].contractCode));
    assert s.table.rows[id].contractCode == s.table.rows[other].contractCode;
  }

  /** The update of a stored contract to a truthy code that another
      contract already holds. */
  predicate CodeClash(t: Table<Contract>, id: int, data: ContractPatch) {
    && id in t.rows
    && SuppliedString(data.contractCode)
    && data.contractCode.value != t.rows[id].contractCode
    && CodeTaken(t.rows, data.contractCode.value)
  }

  /** `update` with the uniqueness lookup that `create` performs: a code
      clash is refused and nothing is saved; every other update behaves as
      written. */
  function UpdateStepChecked(t: Table<Contract>, id: int, data: ContractPatch): (s: Step<Contract, Contract>)
    requires t.Valid()
    ensures s.table.Valid()
    ensures s.result == Err(CodeExists) <==> CodeClash(t, id, data)
    ensures CodeClash(t, id, data) ==> s.table == t
    ensures !CodeClash(t, id, data) ==> s == UpdateStep(t, id, data)
    ensures Consistent(t) ==> Consistent(s.table)
    ensures CodesUnique(t.rows) ==> CodesUnique(s.table.rows)
  {
    if CodeClash(t, id, data) then Step(Err(CodeExists), t)
    else UpdateStep(t, id, data)
  }

  /** The field-by-field assignments of `update`, on the contract it found. */
  method Apply(found: Contract, data: ContractPatch) returns (contract: Contract)
    ensures contract == Patched(found, data)
  {
    ghost var p := Patched(found, data);
    contract := found;
    if data.contractCode.Defined? && data.contractCode.value != "" {
      contract := contract.(contractCode := data.contractCode.value);
    }
    assert contract == found.(contractCode := p.contractCode);
    if data.clientId.Defined? && data.clientId.value != 0.0 {
      contract := contract.(clientId := data.clientId.value);
    }
    assert contract == found.(contractCode := p.contractCode, clientId := p.clientId);
    if data.serviceId.Defined? && data.serviceId.value != 0.0 {
      contract := contract.(serviceId := data.serviceId.value);
    }
    assert contract == found.(contractCode := p.contractCode, clientId := p.clientId, serviceId := p.serviceId);
    if data.quantity.Defined? && data.quantity.value != 0.0 {
      contract := contract.(quantity := data.quantity.value);
    }
    assert contract == found.(contractCode := p.contractCode, clientId := p.clientId, serviceId := p.serviceId, quantity := p.quantity);
    if data.unitPrice.Defined? && data.unitPrice.value != 0.0 {
      contract := contract.(unitPrice := data.unitPrice.value);
    }
    assert contract == found.(contractCode := p.contractCode, clientId := p.clientId, serviceId := p.serviceId, quantity := p.quantity, unitPrice := p.unitPrice);
    if data.startDate.Defined? {
      contract := contract.(startDate := data.startDate.value);
    }
    assert contract == found.(contractCode := p.contractCode, clientId := p.clientId, serviceId := p.serviceId, quantity := p.quantity, unitPrice := p.unitPrice, startDate := p.startDate);
    if data.endDate.Defined? {
      contract := contract.(endDate := DateOrNull(data.endDate));
    }
    assert contract == found.(contractCode := p.contractCode, clientId := p.clientId, serviceId := p.serviceId, quantity := p.quantity, unitPrice := p.unitPrice, startDate := p.startDate, endDate := p.endDate);
    if data.status.Defined? {
      contract := contract.(status := data.status.value);
    }
    assert contract == found.(contractCode := p.contractCode, clientId := p.clientId, serviceId := p.serviceId, quantity := p.quantity, unitPrice := p.unitPrice, startDate := p.startDate, endDate := p.endDate, status := p.status);
    if data.observation.Defined? {
      contract := contract.(observation := StringOrNull(data.observation));
    }
    assert contract == found.(contractCode := p.contractCode, clientId := p.clientId, serviceId := p.serviceId, quantity := p.quantity, unitPrice := p.unitPrice, startDate := p.startDate, endDate := p.endDate, status := p.status, observation := p.observation);
  }

  class ContractService {
    /** The contract table behind the repository. */
    var contracts: Table<Contract>

    /** The table invariant. Unique contract codes are not part of it,
        because `Update` as written does not keep them. */
    ghost predicate Valid()
      reads this
    {
      Consistent(contracts)
    }

    constructor ()
      ensures Valid() && contracts == Empty()
    {
      contracts := Empty();
    }

    /** `getById(id)`: the stored contract, or null. */
    function GetById(id: int): (r: Option<Contract>)
      reads this
      requires Valid()
      ensures r.Some? <==> id in contracts.rows
      ensures r.Some? ==> r.value == contracts.rows[id] && r.value.id == Some(id)
    {
      if id in contracts.rows then Some(contracts.rows[id]) else None
    }

    /** `getAll()`: every stored contract, in id order. */
    function GetAll(): (r: seq<Contract>)
      reads this
      requires Valid()
      ensures forall k :: k in contracts.rows ==> contracts.rows[k] in r
      ensures forall i :: 0 <= i < |r| ==> r[i].id.Some? && r[i].id.value in contracts.rows && contracts.rows[r[i].id.value] == r[i]
      ensures forall i, j :: 0 <= i < j < |r| ==> r[i].id.value < r[j].id.value
    {
      contracts.Values()
    }

    /** `contractRepository.save(contract)`: a contract without an id is
        inserted under the next id; one with an id overwrites that row. */
    method Save(contract: Contract) returns (saved: Contract)
      requires contracts.Valid()
      modifies this
      ensures contracts.Valid()
      ensures contract.id.None? ==>
                saved == contract.(id := Some(old(contracts.nextId))) && contracts == old(contracts).Insert(saved)
      ensures contract.id.Some? ==>
                saved == contract
                && contracts == if contract.id.value in old(contracts.rows) then old(contracts).Put(contract.id.value, contract) else old(contracts)
    {
      if contract.id.None? {
        saved := contract.(id := Some(contracts.nextId));
        contracts := contracts.Insert(saved);
      } else {
        saved := contract;
        if contract.id.value in contracts.rows {
          contracts := contracts.Put(contract.id.value, contract);
        }
      }
    }

    method Create(data: ContractData) returns (r: Result<Contract>)
      requires Valid()
      modifies this
      ensures Valid()
      ensures Step(r, contracts) == CreateStep(old(contracts), data)
    {
      if CodeTaken(contracts.rows, data.contractCode) {
        return Err(CodeExists);
      }
      var contract := Contract(
        None, data.contractCode, data.clientId, data.serviceId, data.quantity, data.unitPrice,
        data.startDate, DateOrNull(data.endDate), data.status, StringOrNull(data.observation));
      var saved := Save(contract);
      r := Ok(saved);
    }

    /** `update(id, data)`, as written: no lookup of the new contract code. */
    method Update(id: int, data: ContractPatch) returns (r: Result<Contract>)
      requires Valid()
      modifies this
      ensures Valid()
      ensures Step(r, contracts) == UpdateStep(old(contracts), id, data)
    {
      var found := GetById(id);
      if found.None? {
        return Err(ContractNotFound);
      }
      var contract := Apply(found.value, data);
      var saved := Save(contract);
      r := Ok(saved);
    }

    method Delete(id: int) returns (r: Result<()>)
      requires Valid()
      modifies this
      ensures Valid()
      ensures Step(r, contracts) == DeleteStep(old(contracts), id, ContractNotFound)
    {
      if id !in contracts.rows {
        return Err(ContractNotFound);
      }
      contracts := contracts.Remove(id);
      r := Ok(());
    }
  }
}
