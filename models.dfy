/** The four entities and the two enumerations of the domain. Each entity
    carries its identity as `id: number | null`: null until the table has
    assigned one. */
module Models {
  import opened Js

  /** `ContractStatus`, a string enumeration. */
  datatype ContractStatus = ACTIVE | INACTIVE | PENDING

  /** `RoleUser`; the `User` record itself is typed to the EMPLOYEE role only. */
  datatype RoleUser = ADMIN | FINANCE | EMPLOYEE

  /** A JavaScript `Date`, reduced to its time value (milliseconds since the epoch). */
  datatype Date = Date(time: int)

  datatype Client = Client(id: Option<int>, code: Option<real>, nickname: string, companyName: string, cnpj: string)

  datatype Service = Service(id: Option<int>, name: string, code: string, defaultPrice: Option<real>)

  datatype User = User(id: Option<int>, email: string, passwordHash: string, role: RoleUser)

  datatype Contract = Contract(
    id: Option<int>,
    contractCode: string,
    clientId: real,
    serviceId: real,
    quantity: real,
    unitPrice: real,
    startDate: Date,
    endDate: Option<Date>,
    status: ContractStatus,
    observation: Option<string>)

  /** The string value of each status. */
  function StatusName(s: ContractStatus): string {
    match s
    case ACTIVE => "ACTIVE"
    case INACTIVE => "INACTIVE"
    case PENDING => "PENDING"
  }

  /** The status whose string value is `name`, if any (what a native-enum schema accepts). */
  function StatusNamed(name: string): (r: Option<ContractStatus>)
    ensures r.Some? ==> StatusName(r.value) == name
    ensures forall s :: StatusName(s) == name ==> r == Some(s)
  {
    if name == "ACTIVE" then Some(ACTIVE)
    else if name == "INACTIVE" then Some(INACTIVE)
    else if name == "PENDING" then Some(PENDING)
    else None
  }
}
