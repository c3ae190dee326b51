# ProjetoIntegrador back end: services and controllers in Dafny

This project models the back end of BFDnodejs/ProjetoIntegrador, a billing back office that keeps
four kinds of records: clients, services, contracts between them, and users.

**The services.** Each of the four services (`ClientService`, `ServiceService`,
`ContractService`, `UserService`) is a class over an in-memory table that stands for its SQL
repository. The table (`Store.Table`) holds four things:

- rows keyed by an auto-increment id;
- the stored ids in order;
- the next id an insert hands out;
- `save`, which inserts a record whose id is null and overwrites the row of a record that has an id.

Each service operation comes in two forms:

- a pure step function over the table (`RegisterStep`, `UpdateStep`, …), which states the outcome
  and the new table and carries the invariants;
- a class method that performs the source's field-by-field mutation, whose `ensures` ties it to
  that step function.

The invariants include uniqueness of the natural keys (CNPJ, client code, service code) and
every stored user having the EMPLOYEE role. Contract codes and user e-mails are checked by
`create` and `register` but not by `update`, so the classes do not keep them unique; the
corrected update steps under "## Findings" do.

**The controllers.** The four controllers are pure functions. Each takes the request's path id
and JSON body, plus the service operation it calls, and returns an `Http.Exchange`:

- the arguments the service was called with, or `None` when validation stopped the request;
- the status and body of the response.

The zod schemas are partial functions from JSON to the service's request type (module `Zod`).
The module `Api` follows requests from the controller through the service to the table.

Conventions:

- JavaScript numbers are `real`s; ids are `int`s.
- `parseInt(s, 10)` is written out in `Numbers` and yields an integer or NaN.
- `undefined`, `null` and thrown errors are `Js.Opt`, `Js.Option` and `Js.Result`.
- Truthiness tests (`if (data.x)`, `data.x || null`) are spelled out as `Js.SuppliedString`,
  `Js.SuppliedNumber`, `Js.StringOrNull` and `Js.NumberOrNull`.

## Model

| member | source | states |
|---|---|---|
| Js.StringOrNull | src/services/ContractService.ts:38 | `observation \|\| null`: null exactly when the value is absent or empty, otherwise the value itself |
| Js.NumberOrNull | src/services/ServiceService.ts:25 | `defaultPrice \|\| null`: null exactly when the price is absent or zero, otherwise the price |
| Numbers.ParseInt | src/controller/ClientController.ts:13 | `parseInt(val, 10)` yields an integer exactly when a digit follows the leading white space and optional sign; the sign fixes the result's sign |
| Numbers.ParseIntOfDecimal | src/controller/ServiceController.ts:17-19 | the decimal rendering of any natural number, followed by nothing or by a non-digit, parses back to that number |
| Numbers.ParseIntOfNegative | src/controller/ClientController.ts:13 | a leading minus sign negates the parsed value |
| Numbers.ParseIntSkipsWhiteSpace | src/controller/ClientController.ts:13 | leading white space does not change the parsed value |
| Numbers.ParseIntNaN | src/controller/ClientController.ts:13 | text that starts with a non-digit, non-sign, non-space character is NaN |
| Models.StatusNamed | src/core/interfaces/enum.ts:1-5 | the status with a given string value; it inverts the enumeration's string values and finds every one of them |
| Store.Table.Insert | src/repositories/ContractRepository.ts:9-39 | an INSERT stores the record under the next id, which no row held, and appends that id to the order |
| Store.Table.Put | src/repositories/ContractRepository.ts:40-57 | an UPDATE replaces one stored row and keeps the ids, their order and the next id |
| Store.Table.PutSame | src/repositories/ContractRepository.ts:40-57 | writing a row back unchanged leaves the table equal to what it was |
| Store.Table.Remove | src/repositories/ContractRepository.ts:145-148 | a DELETE removes exactly that id and keeps the table invariant |
| Store.Table.Values | src/repositories/ContractRepository.ts:124-143 | `listAll` returns one record per stored id, in id order, and every stored record appears |
| Store.DeleteStep | src/services/ClientService.ts:74-80 | `delete` on an absent id fails with the not-found message and changes nothing; otherwise exactly that row is removed and every other row is unchanged |
| ClientServices.CodeOrNull | src/services/ClientService.ts:34 | `data.code \|\| null`: absent, null and 0 become null; any other code is kept |
| ClientServices.RegisterStep | src/services/ClientService.ts:21-36 | a taken CNPJ fails with "Client with this CNPJ already exists." and a taken non-null code with "Client with this Code already exists.", both leaving the table unchanged; otherwise the client gets the next id; CNPJ and code uniqueness are preserved |
| ClientServices.UpdateStep | src/services/ClientService.ts:46-72 | absent id, a CNPJ taken by another client and a code taken by another client fail with their messages and change nothing; otherwise exactly that row changes: CNPJ, nickname and company name only when truthy, code whenever defined; uniqueness is preserved |
| ClientServices.PutKeepsConsistent | src/services/ClientService.ts:52-66 | overwriting a row whose new CNPJ and code are its own or unused keeps the table consistent |
| ClientServices.ClientService.GetById | src/services/ClientService.ts:38-40 | the stored client with that id, or null |
| ClientServices.ClientService.GetAll | src/services/ClientService.ts:42-44 | every stored client, each under its own id, in increasing id order |
| ClientServices.ClientService.Save | Tests/repositories/ClientRepository.ts:8-19 | `save` inserts a client without an id under the next id and overwrites the row of one with an id |
| ClientServices.ClientService.Register | src/services/ClientService.ts:21-36 | the method's outcome and new table are those of `RegisterStep` |
| ClientServices.ClientService.Update | src/services/ClientService.ts:46-72 | the method's outcome and new table are those of `UpdateStep` |
| ClientServices.ClientService.Delete | src/services/ClientService.ts:74-80 | the method's outcome and new table are those of `DeleteStep` |
| ServiceServices.CreateStep | src/services/ServiceService.ts:19-27 | a taken code fails with "Service with this code already exists." and changes nothing; otherwise the service gets the next id with price `defaultPrice \|\| null`; code uniqueness is preserved |
| ServiceServices.UpdateStep | src/services/ServiceService.ts:37-55 | absent id and a truthy new code held by another service fail with their messages and change nothing; otherwise name and code change only when truthy and the price whenever defined; uniqueness is preserved |
| ServiceServices.ZeroPriceAsymmetry | src/services/ServiceService.ts:25-52 | a price of 0 is stored as null by `create` but as 0 by `update` |
| ServiceServices.ServiceService.GetById | src/services/ServiceService.ts:29-31 | the stored service with that id, or null |
| ServiceServices.ServiceService.GetAll | src/services/ServiceService.ts:33-35 | every stored service, in increasing id order |
| ServiceServices.ServiceService.Save | src/repositories/ServiceRepository.ts:8-19 | `save` inserts a service without an id and overwrites the row of one with an id |
| ServiceServices.ServiceService.Create | src/services/ServiceService.ts:19-27 | the method's outcome and new table are those of `CreateStep` |
| ServiceServices.ServiceService.Update | src/services/ServiceService.ts:37-55 | the method's outcome and new table are those of `UpdateStep` |
| ServiceServices.ServiceService.Delete | src/services/ServiceService.ts:57-63 | the method's outcome and new table are those of `DeleteStep` |
| ContractServices.DateOrNull | src/services/ContractService.ts:36 | `endDate \|\| null`: null exactly when absent (a date is always truthy) |
| ContractServices.CreateStep | src/services/ContractService.ts:20-42 | a taken contract code fails with "Contract with this code already exists." and changes nothing; otherwise the contract gets the next id, with end date and observation defaulting to null; code uniqueness is preserved |
| ContractServices.Patched | src/services/ContractService.ts:50-59 | field by field: the id never changes; code, client id, service id, quantity and unit price change only when the supplied value is truthy (so 0 and "" are ignored); start date and status whenever supplied; end date and observation whenever not undefined, a falsy observation becoming null; an empty patch changes nothing |
| ContractServices.UpdateStep | src/services/ContractService.ts:44-62 | an absent id fails with "Contract not found." and changes nothing; otherwise exactly that row becomes the patched contract |
| ContractServices.UpdateBreaksCodeUniqueness | src/services/ContractService.ts:50 | in any table with two contracts, renaming one to the other's code succeeds and leaves two rows sharing a code |
| ContractServices.UpdateStepChecked | src/services/ContractService.ts:21-50 | update with the uniqueness lookup `create` makes: it fails with "Contract with this code already exists." exactly when a stored contract is given a truthy code that another contract holds, changing nothing then; on every other input it is `UpdateStep`; code uniqueness is preserved |
| ContractServices.Apply | src/services/ContractService.ts:50-59 | the nine field assignments of `update` produce exactly `Patched` |
| ContractServices.ContractService.GetById | src/services/ContractService.ts:64-66 | the stored contract with that id, or null |
| ContractServices.ContractService.GetAll | src/services/ContractService.ts:68-70 | every stored contract, in increasing id order |
| ContractServices.ContractService.Save | src/repositories/ContractRepository.ts:8-58 | `save` inserts a contract without an id and overwrites the row of one with an id |
| ContractServices.ContractService.Create | src/services/ContractService.ts:20-42 | the method's outcome and new table are those of `CreateStep` |
| ContractServices.ContractService.Update | src/services/ContractService.ts:44-62 | the method's outcome and new table are those of `UpdateStep`, the update as written, with no lookup of the new code |
| ContractServices.ContractService.Delete | src/services/ContractService.ts:72-78 | the method's outcome and new table are those of `DeleteStep` |
| UserServices.Blank | src/services/UserService.ts:30 | the user as read paths return it: same id, e-mail and role, empty password hash |
| UserServices.BlankAll | src/services/UserService.ts:37 | `users.map(...)`: same length, each entry the blanked user at the same position, none with a password hash |
| UserServices.RegisterStep | src/services/UserService.ts:17-25 | a taken e-mail fails with "User with this email already exists." and changes nothing; otherwise the user gets the next id, the EMPLOYEE role and the password as given; the all-EMPLOYEE invariant and e-mail uniqueness are preserved |
| UserServices.Patched | src/services/UserService.ts:46-47 | e-mail and password change only when truthy; id and role never change |
| UserServices.UpdateStep | src/services/UserService.ts:40-52 | an absent id fails with "User not found." and changes nothing; otherwise exactly that row is patched and the returned user has an empty password hash |
| UserServices.UpdateBreaksEmailUniqueness | src/services/UserService.ts:46 | in any table with two users, changing one's e-mail to the other's succeeds and leaves two rows sharing an e-mail |
| UserServices.UpdateStepUnique | src/services/UserService.ts:18-46 | update with the lookup `register` makes: it fails with "User with this email already exists." exactly when a stored user is given a truthy e-mail that another user holds, changing nothing then; on every other input it is `UpdateStep`; e-mail uniqueness is preserved |
| UserServices.Lookup | src/services/UserService.ts:27-33 | `getById` over a table: null exactly for an absent id, else that user with an empty password hash |
| UserServices.UserService.GetById | src/services/UserService.ts:27-33 | null for an absent id, else that user blanked: same id, EMPLOYEE role, empty password hash |
| UserServices.UserService.GetAll | src/services/UserService.ts:35-38 | one blanked user per stored user, in id order, each with an empty password hash |
| UserServices.UserService.Save | Tests/repositories/UserRepository.ts:10-23 | `save` inserts a user without an id and overwrites the row of one with an id |
| UserServices.UserService.Register | src/services/UserService.ts:17-25 | the method's outcome and new table are those of `RegisterStep` |
| UserServices.UserService.Update | src/services/UserService.ts:40-52 | the method's outcome and new table are those of `UpdateStep`, the update as written, with no lookup of the new e-mail |
| UserServices.UserService.Delete | src/services/UserService.ts:54-60 | the method's outcome and new table are those of `DeleteStep` |
| Http.ParseId | src/controller/ClientController.ts:12-14 | a missing id is a validation error; any id string is accepted and parsed with `parseInt` |
| Http.IdOfDecimal | src/controller/ServiceController.ts:17-19 | the path segment of a decimal id reaches the service as that integer |
| Http.IdTen | Tests/Controller/ServiceController.test.ts:69-81 | the path id "10" reaches the service as the number 10 |
| Zod.Utf16Length | src/controller/UserController.ts:8 | the length zod's `.min` and `.length` measure: UTF-16 code units: between one and two per character; exactly the character count when every character is below U+10000, and twice it when every one is at or above |
| ClientControllers.ParseRegister | src/controller/ClientController.ts:5-10 | what passes has non-empty nickname and company name and a CNPJ of 14 UTF-16 code units, and is what the body holds |
| ClientControllers.RegisterRoundTrip | src/controller/ClientController.ts:5-10 | every request meeting those bounds passes unchanged, with a code that is a number, null or absent |
| ClientControllers.RegisterRefusesCnpjLength | src/controller/ClientController.ts:9 | a CNPJ whose JavaScript length is not 14 is refused |
| ClientControllers.ParseUpdate | src/controller/ClientController.ts:16-21 | what passes meets the field bounds and has a code or a truthy nickname, company name or CNPJ |
| ClientControllers.UpdateRoundTrip | src/controller/ClientController.ts:16-21 | every update meeting the bounds and the refinement passes unchanged |
| ClientControllers.UpdateRefusesEmptyBody | src/controller/ClientController.ts:21 | an empty body is refused |
| ClientControllers.Register | src/controller/ClientController.ts:26-37 | the service is called exactly when validation passes, with the validated request; validation failure is 400 "Validation failed"; success 201 with the client; a service error 400 with its message |
| ClientControllers.GetById | src/controller/ClientController.ts:39-51 | 400 on a validation error; 404 "Client not found" for null; 200 with the client; 500 with the message on a service error |
| ClientControllers.GetAll | src/controller/ClientController.ts:53-60 | 200 with the list, or 500 with the error's message |
| ClientControllers.Update | src/controller/ClientController.ts:62-74 | the service is called only when id and body both validate; 200 with the client and "Client updated successfully"; a service error 404 with its message |
| ClientControllers.Delete | src/controller/ClientController.ts:76-87 | 400 on a validation error; 204 with no content on success; 404 with the message on a service error |
| ServiceControllers.ParseCreate | src/controller/ServiceController.ts:5-9 | what passes has a name of at least 3 and a code of at least 2 UTF-16 code units and a positive price if any |
| ServiceControllers.CreateRoundTrip | src/controller/ServiceController.ts:5-9 | every request meeting those bounds passes unchanged |
| ServiceControllers.CreateRefusesNonPositivePrice | src/controller/ServiceController.ts:8 | a zero or negative default price is refused |
| ServiceControllers.ParseUpdate | src/controller/ServiceController.ts:11-15 | what passes meets the bounds and has a truthy name or code or a price |
| ServiceControllers.UpdateRoundTrip | src/controller/ServiceController.ts:11-15 | every update meeting the bounds and the refinement passes unchanged |
| ServiceControllers.UpdateRefusesEmptyBody | Tests/Controller/ServiceController.test.ts:111-121 | an empty update body is refused |
| ServiceControllers.Create | src/controller/ServiceController.ts:24-35 | service called exactly on valid input; 400 "Validation failed"; 201 with the service; 400 with the message on a service error |
| ServiceControllers.GetById | src/controller/ServiceController.ts:37-49 | 400 on a validation error; 404 "Service not found" for null; 200 with the service; 500 on a service error |
| ServiceControllers.GetAll | src/controller/ServiceController.ts:51-58 | 200 with the list, or 500 with the error's message |
| ServiceControllers.Update | src/controller/ServiceController.ts:60-72 | service called only when id and body validate; 200 with the service and "Service updated successfully"; 404 with the message on a service error |
| ServiceControllers.Delete | src/controller/ServiceController.ts:74-85 | 400 on a validation error; 204 on success; 404 with the message on a service error |
| ServiceControllers.CreateShortCode | Tests/Controller/ServiceController.test.ts:54-65 | `{name: "Maintenance", code: "A"}` is answered 400 "Validation failed" without calling the service |
| ServiceControllers.GetByIdTen | Tests/Controller/ServiceController.test.ts:69-81 | `GET /services/10` calls the service with 10 and answers 200 with what it found |
| ServiceControllers.UpdateFiveName | Tests/Controller/ServiceController.test.ts:95-109 | `PUT /services/5` with a name calls the service with 5 and that name and answers 200 with the message |
| ServiceControllers.DeleteOne | Tests/Controller/ServiceController.test.ts:125-133 | `DELETE /services/1` calls the service with 1 and answers 204 |
| UserControllers.ParseRegister | src/controller/UserController.ts:6-9 | what passes has an e-mail address and a password of at least 6 UTF-16 code units |
| UserControllers.RegisterRoundTrip | src/controller/UserController.ts:6-9 | every such request passes unchanged |
| UserControllers.RegisterRefusesShortPassword | src/controller/UserController.ts:8 | a password shorter than 6 UTF-16 code units is refused |
| UserControllers.RegisterAcceptsThreeAstralCharacters | src/controller/UserController.ts:8 | a password of three characters above U+10000 is six code units long and passes |
| UserControllers.ParseLogin | src/controller/UserController.ts:11-14 | what passes has an e-mail address and a password string |
| UserControllers.LoginRoundTrip | src/controller/UserController.ts:11-14 | every credential pair with an e-mail address passes unchanged |
| UserControllers.ParseUpdate | src/controller/UserController.ts:20-23 | what passes meets the bounds and has a truthy e-mail or password |
| UserControllers.UpdateRoundTrip | src/controller/UserController.ts:20-23 | every update meeting the bounds and the refinement passes unchanged |
| UserControllers.UpdateRefusesEmptyBody | src/controller/UserController.ts:23 | an empty body is refused |
| UserControllers.Register | src/controller/UserController.ts:32-43 | 400 "Validation failed" without a call; 201 with only id, e-mail and role of the new user; 400 with the message on a service error |
| UserControllers.Login | src/controller/UserController.ts:45-56 | 200 with the authentication result unchanged; 401 with the message on any failure other than validation |
| UserControllers.GetById | src/controller/UserController.ts:58-70 | 400 on a validation error; 404 "User not found" for null; 200 with the user; 500 on a service error |
| UserControllers.GetAll | src/controller/UserController.ts:72-79 | 200 with the list, or 500 with the error's message |
| UserControllers.Update | src/controller/UserController.ts:81-93 | service called only when id and body validate; 200 with the user and "User updated successfully"; 404 with the message on a service error |
| UserControllers.Delete | src/controller/UserController.ts:95-106 | 400 on a validation error; 204 on success; 404 with the message on a service error |
| ContractControllers.ParseCreate | src/controller/ContractController.ts:6-16 | what passes carries all required properties from the body, a status of the enumeration, and dates as `coerce` reads them; a missing start date is refused |
| ContractControllers.CreateRoundTrip | Tests/Controller/ContractController.test.ts:30-56 | every contract passes, its start and end dates reaching the service as dates |
| ContractControllers.CreateRefusesUnknownStatus | src/controller/ContractController.ts:14 | a status other than ACTIVE, INACTIVE or PENDING is refused |
| ContractControllers.OptionalDate | src/controller/ContractController.ts:13 | `z.coerce.date().optional()`: an absent property stays absent; a present one passes exactly when `coerce` makes a date of it |
| ContractControllers.ParseUpdate | src/controller/ContractController.ts:18 | every property optional; what passes is what the body holds, its dates as `coerce` reads them |
| ContractControllers.ParseUpdateOfFields | src/controller/ContractController.ts:6-18 | any object carrying the properties of a patch, each present or absent, parses to exactly that patch |
| ContractControllers.UpdateRoundTrip | src/controller/ContractController.ts:6-18 | every patch, whichever properties it supplies, passes unchanged from the body a client writes for it |
| ContractControllers.UpdateAcceptsEmptyBody | src/controller/ContractController.ts:18-46 | an empty body passes as the patch that changes nothing |
| ContractControllers.Create | src/controller/ContractController.ts:27-40 | service called exactly on valid input; 400 "Validation failed"; 201 with the contract; 400 with the message on a service error |
| ContractControllers.Update | src/controller/ContractController.ts:42-56 | service called only when id and body validate; 200 with the contract and no message; 404 with the message on a service error |
| ContractControllers.GetById | src/controller/ContractController.ts:58-68 | 404 "Contract not found" for null; 200 with the contract; every error, validation included, 400 with its message |
| ContractControllers.GetAll | src/controller/ContractController.ts:70-77 | 200 with the list, or 500 with the error's message |
| ContractControllers.Delete | src/controller/ContractController.ts:79-87 | 204 on success; every error, validation included, 404 |
| Api.DuplicateCnpjRegister | Tests/Controller/ClientController.test.ts:63-74 | registering a stored CNPJ answers 400 with "Client with this CNPJ already exists." and leaves the table unchanged |
| Api.FreshClientRegister | Tests/Controller/ClientController.test.ts:36-49 | registering a fresh client answers 201 with the client stored under the next id, and the table stays consistent |
| Api.ValidatedClientUpdateTruthy | src/controller/ClientController.ts:16-21 | in a validated client update, the service's truthiness tests coincide with presence |
| Api.ValidatedServicePriceKept | src/controller/ServiceController.ts:8 | a validated creation request stores its price exactly when it has one, so the zero-price asymmetry is unreachable over HTTP |
| Api.UserLookup | src/controller/UserController.ts:58-70 | `GET /users/n` answers 200 with the user's e-mail, role EMPLOYEE and an empty password hash, or 404 |
| Api.FreshUserRegister | src/controller/UserController.ts:32-36 | registering a fresh e-mail answers 201 with the new id, the e-mail and EMPLOYEE, and nothing else |
| Api.EmptyContractUpdate | src/controller/ContractController.ts:42-56 | `{}` on a stored contract answers 200 with the contract unchanged and leaves the table as it was; an unknown id is 404 |
| Api.DeleteServiceTwice | src/services/ServiceService.ts:57-63 | deleting a stored service answers 204 and removes exactly that row; a second delete answers 404 with "Service not found." |

## Left out

- The SQL repositories and the MySQL pool are replaced by the in-memory table.
  - `listAll` has no `ORDER BY`. The model returns rows in id order.
  - `findById` on an id the table does not hold returns null. An `id` of NaN is passed on to the service unchanged; what the database does with it is not modelled.
  - `save` with an id whose row is gone returns the record and changes nothing. This matches an UPDATE that matches no row.
- bcrypt is left out.
  - `UserRepository.save` hashes `passwordHash` on every save, so an update that changes only the e-mail hashes the stored hash again.
  - The model keeps the string the service passes to `save`.
- UserServices.RegisterStep returns the password as given in `passwordHash`, as the repository's insert branch does. The stored column is a hash of it, which is not modelled.
- The authentication service (`AuthenticateUserService`) is not part of this model. Login's call into it is a parameter.
- The `ensureAuthenticated` middleware, the routes and `index.ts` are not part of this model.
- zod internals are left out.
  - The issue list (`details`) of a validation failure is not modelled. The body is `ValidationFailed`.
  - The e-mail pattern is an opaque predicate `isEmail`.
  - The date coercion is an opaque function `coerce`.
  - `ValidationMessage` stands for the serialised message of a `ZodError`.
- Floating point is left out: numbers are exact reals, with no NaN, infinity or rounding.
- Numbers.ParseInt: `parseInt("-0", 10)` is the negative zero of JavaScript; the model yields the integer 0, which is the same id.
- CNPJ check digits are not validated by the source and not modelled: only the length of 14 is checked.
- Concurrency between requests is left out. Every operation runs to completion on one table.
- `IBillingService` and `ContractRepository.findByClientId` are not used by the modelled services.
- Unknown body properties that zod strips and non-object bodies are modelled only as "not read" and "refused".

## Findings

| source | as written | input that shows it | evidently intended | confidence | as-written member | corrected member |
|---|---|---|---|---|---|---|
| src/services/ContractService.ts:50 | `update` assigns a truthy `contractCode` without the `findByCode` lookup that `create` makes (lines 21-26) | two stored contracts with codes "A" and "B"; `update(idOfB, {contractCode: "A"})` succeeds and both rows have code "A" | refuse a code held by another contract with "Contract with this code already exists." | high; not executed | ContractServices.UpdateBreaksCodeUniqueness | ContractServices.UpdateStepChecked |
| src/services/UserService.ts:46 | `update` assigns a truthy e-mail without the `findByEmail` lookup that `register` makes (lines 18-21) | two stored users "a@x.io" and "b@x.io"; `update(idOfB, {email: "a@x.io"})` succeeds and both rows have that e-mail | refuse an e-mail held by another user with "User with this email already exists." | high; not executed | UserServices.UpdateBreaksEmailUniqueness | UserServices.UpdateStepUnique |
