# Equipment-rental back end: a Dafny model of its service layer

This project models the service layer of a NestJS/TypeORM back end that rents
out equipment. The services it covers are:

- the **equipment catalog**: typed technical specs, stock, a repair flag, and the
  derived status `in-repair` / `out-of-stock` / `available`;
- the **rental workflow**: a client's rental request is checked against
  availability, and a billing contract is generated. Staff approve or reject the
  rental, and a rejection gives the unit back to stock. There are also listings
  and metrics;
- the **repair workflow**: a client reports a rented equipment broken, which
  disables the rental and sends the equipment to the lab. A technician then marks
  it repaired, which returns one unit to stock;
- the **contract** generator and its client-scoped detail view;
- the **delivery** tracker;
- the **role** store with its unique role names;
- the **role guard** in front of gated endpoints.

The database is a value of type `Entities.Store`. It holds the catalog, plus the
rental, contract, lab and user tables as maps keyed by id.

Every service operation is a pure function from a store (or one table) to a
`Result`. On failure the result is `Failure(Error(kind, message))`. The kinds are
NotFound, BadRequest, Forbidden, Conflict and Internal. Internal stands for the
plain JavaScript errors that Nest answers with 500. A failure returns no store, so
a failed operation writes nothing. `getRentalMetrics` is a method: its loop
counts and sums over the rentals.

Some values come from outside the program, and the model takes them as
parameters:

- the ids the database generates are parameters that must be fresh;
- the clock reading behind `CTR-<millis>` is the `stamp` parameter;
- the floored random draw behind `CN-<n>` is the `draw` parameter, with
  `draw < 10000`;
- the "now" of `getActiveDeliveries` is the `now` parameter.

Dates are integer timestamps.

Modules (one file each):

| module | file | covers |
|---|---|---|
| `Base` | base.dfy | `Option`, `Result`, `Error`, JavaScript truthiness of optional strings |
| `Decimal` | decimal.dfy | decimal text of naturals and its value (used for generated ids) |
| `Users` | users.dfy | the request principal and the role names |
| `RoleGuard` | role_guard.dfy | `UserRoleGuard.canActivate` |
| `Roles` | roles.dfy | `RolesService` |
| `Deliveries` | deliveries.dfy | `DeliveriesService` |
| `Equipments` | equipments.dfy | `EquipmentsService` and the spec tables |
| `Entities` | entities.dfy | rental, contract and lab rows; the store |
| `Contracts` | contracts.dfy | `ContractService` |
| `Rentals` | rentals.dfy | `RentalsService` |
| `Labs` | labs.dfy | `LabsService` |

Equipment lookups (`findOne`, `updateStock`, `update`,
`remove`) throw a plain `Error`, not a `NotFoundException`. A missing equipment
is therefore modelled as kind Internal (HTTP 500), not NotFound. This also
applies to `createRequest` on an unknown equipment id.

## Model

| member | source | states |
|---|---|---|
| RoleGuard.CanActivate | src/auth/guards/user-role.guard.ts:12-36 | Absent or empty declared roles grant access. A missing principal fails Forbidden with "User not found in request". Every failure is Forbidden, and the guard never answers false. |
| RoleGuard.GrantedIffRolesIntersect | src/auth/guards/user-role.guard.ts:27-33 | With declared roles and a principal, access is granted exactly when the user's role set and the declared set intersect (both directions). |
| Roles.Create | src/roles/roles.service.ts:20-32 | Fails Conflict `Role '<name>' already exists` exactly when the name is already taken, and then writes nothing. Otherwise it stores exactly one new row with the given fields. |
| Roles.FindOne | src/roles/roles.service.ts:38-44 | Fails NotFound `Role with ID <id> not found` exactly when the id is absent; otherwise returns the stored row. |
| Roles.Update | src/roles/roles.service.ts:46-49 | A missing id fails NotFound. For a stored id, the update fails exactly when another row already carries the resulting name, with the unique-name violation (Internal). Each supplied field replaces the stored one, an absent field keeps its value, and only that row changes. |
| Roles.Remove | src/roles/roles.service.ts:51-54 | A missing id fails NotFound; otherwise exactly that row is deleted and the others are untouched. |
| Roles.FindByName | src/roles/roles.service.ts:57-59 | Returns a row carrying the name, and returns nothing exactly when no row carries it. |
| Roles.CreatePreservesUniqueNames | src/roles/entities/role.entity.ts:4 | Create keeps role names unique and every row under its own id. |
| Roles.UpdatePreservesUniqueNames | src/roles/entities/role.entity.ts:4 | Update keeps role names unique and every row under its own id. |
| Roles.RemovePreservesUniqueNames | src/roles/entities/role.entity.ts:4 | Remove keeps role names unique and every row under its own id. |
| Roles.CreatedRoleIsFound | src/roles/roles.service.ts:30-44 | A role just created is found under its new id with the given name, description and permissions. |
| Roles.CreatedRoleIsOnlyHolderOfName | src/roles/roles.service.ts:22-31 | After a successful create, the new row is the only one carrying its name. |
| Deliveries.FirstMissingRelation | src/deliveries/deliveries.service.ts:23-31 | Names the first missing or empty relation id, in the order rental, technician, client, with each case stated as an if-and-only-if. |
| Deliveries.Create | src/deliveries/deliveries.service.ts:17-45 | Fails BadRequest `El campo <field> es requerido` for the first missing relation, in that order, and writes nothing. Otherwise it stores exactly one pending delivery with the three ids and the four optional texts. |
| Deliveries.FindOne | src/deliveries/deliveries.service.ts:52-59 | Fails "Delivery not found" exactly when the id is absent; otherwise returns the stored record. |
| Deliveries.Update | src/deliveries/deliveries.service.ts:61-68 | A missing id fails NotFound. Each of the status, technician, client, act document, signature and the two observation fields is the supplied value when given and the stored one otherwise; the id and rental stay. Only that record changes, and an empty patch leaves the table unchanged. |
| Deliveries.Remove | src/deliveries/deliveries.service.ts:70-75 | A missing id fails NotFound; otherwise exactly that record goes. |
| Deliveries.RemoveUndoesCreate | src/deliveries/deliveries.service.ts:33-43 | Removing a freshly created delivery gives back the original table. |
| Deliveries.CreatedDeliveryIsFound | src/deliveries/deliveries.service.ts:33-59 | A delivery just created is found under its new id, as stored, with status pending. |
| Deliveries.UpdateIdempotent | src/deliveries/deliveries.service.ts:64 | Applying the same patch twice equals applying it once. |
| Equipments.StatusCases | src/equipments/equipments.service.ts:169-183 | The status projection: in-repair exactly when flagged, out-of-stock exactly when not flagged and stock below 1, available otherwise. Repair takes precedence over stock. |
| Equipments.ToResponse | src/equipments/equipments.service.ts:180-183 | The response carries the row unchanged. Its status is `in-repair` exactly when the row is flagged, `out-of-stock` exactly when it is not flagged and has stock below 1, and `available` exactly when it is not flagged and has stock. |
| Equipments.FindAll | src/equipments/equipments.service.ts:66-72 | Lists every row and only those rows, each as its own response projection. |
| Equipments.FindOne | src/equipments/equipments.service.ts:74-85 | Fails "Equipment not found" exactly when the id is absent; otherwise returns the row. |
| Equipments.CreatedEquipmentIsFound | src/equipments/equipments.service.ts:57-85 | An equipment just created is found under its new id, as stored, with the given stock. |
| Equipments.FindAllAgreesWithFindOne | src/equipments/equipments.service.ts:66-85 | An id is listed exactly when `findOne` finds it, and the listed entry is the projection of the row `findOne` returns. |
| Equipments.Create | src/equipments/equipments.service.ts:28-64 | Fails "Tipo de equipo no soportado" exactly when the lower-cased type is not computer, printer or phone. Otherwise the new row carries every column of the request as sent (name, type, brand, model, description, price, stock, warranty, release date, image) under the new id, is not in repair, has at most one spec, and that spec matches its type. The spec of the named variant is saved exactly when supplied; specs for other variants are dropped. |
| Equipments.UpdateAsWritten | src/equipments/equipments.service.ts:87-123 | The spec dispatch as written. A missing id fails "Equipo no encontrado". The row becomes its merge with the supplied columns. When `specifications` is given and the raw stored type is exactly a variant's name, that variant's linked spec row is merged; the other spec tables are unchanged. A row whose stored type is not an exact lower-case name gets only its columns merged: no spec table changes. |
| Equipments.Update | src/equipments/equipments.service.ts:87-123 | A missing id fails "Equipo no encontrado". Every supplied column overwrites, every other keeps its value, and the spec links are kept. When `specifications` is given and the lower-cased type names a variant whose spec row the equipment links, that row becomes its merge with the given fields. Spec tables of other variants, and of a variant with no linked row, are unchanged. Without `specifications`, only the row changes. |
| Equipments.RemoveAsWritten | src/equipments/equipments.service.ts:125-156 | The spec dispatch as written: the row goes with the linked spec row of its raw stored type, and every other row stays. A row whose type is not an exact lower-case name is deleted without touching any spec table. |
| Equipments.Remove | src/equipments/equipments.service.ts:125-156 | A missing id fails "Equipo no encontrado". Otherwise the row goes, together with the spec row of its lower-cased type that it links. Every other row of the catalog and of each spec table stays as it was. |
| Equipments.UpdateStock | src/equipments/equipments.service.ts:158-167 | A missing id fails "Equipment not found". Otherwise the stock is set to exactly the given value and nothing else in the catalog changes. |
| Equipments.UpdateStockLastWins | src/equipments/equipments.service.ts:165-166 | Of two stock writes in a row, the second one wins. |
| Equipments.UpdateStockSameIsIdentity | src/equipments/equipments.service.ts:165-166 | Writing back the current stock leaves the catalog unchanged. |
| Equipments.RemoveUndoesCreate | src/equipments/equipments.service.ts:28-64 | Removing a freshly created equipment restores the catalog exactly, spec row included, whatever the case of its type. |
| Equipments.RemoveAsWrittenOrphansSpec | src/equipments/equipments.service.ts:135-140 | As written, removing an equipment created with a type that is not all lower-case (say "Computer") leaves its spec row behind. |
| Equipments.RemoveAsWrittenCounterexample | src/equipments/equipments.service.ts:135-140 | The concrete input: a computer created with type "Computer" and a spec. |
| Equipments.UpdateMergesSpecOfCreated | src/equipments/equipments.service.ts:99-120 | With the corrected dispatch, `specifications` is merged into the spec row of an equipment created with any casing of its type, for each of the computer, printer and phone variants. |
| Equipments.UpdateAsWrittenSkipsSpecOfCreated | src/equipments/equipments.service.ts:99-105 | As written, the same update leaves that spec row as created. |
| Contracts.CreateFromRental | src/contract/contract.service.ts:19-31 | The contract copies the rental's dates and links the user and the rental. Its monthly value is the equipment's price, or 0 without one. Its id is `CTR-` followed by digits whose value is the clock reading. Its number is `CN-` followed by at most four digits. It is saved under its id, replacing any row already there. |
| Contracts.ContractIdsDistinct | src/contract/contract.service.ts:21 | Distinct clock readings give distinct contract ids. |
| Contracts.FindByUser | src/contract/contract.service.ts:39-44 | Returns exactly the contracts whose user is the given one. |
| Contracts.Summary | src/contract/contract.service.ts:67-72 | Each rental field is 'N/A' when the rental is missing. The equipment name is that equipment's name when the rental's equipment exists, and 'N/A' otherwise. |
| Contracts.FindOne | src/contract/contract.service.ts:46-74 | A missing contract fails NotFound. So does a client-role requester who is not the owner, with the same error. Otherwise it returns the detail with the contract's id, number and monthly value, the owner's id, name and email, and the rental summary. |
| Contracts.ForeignContractLooksMissing | src/contract/contract.service.ts:52-58 | For a client who does not own it, a contract is indistinguishable from an absent one: the result equals the result on the store without that contract. |
| Contracts.OwnerAndStaffSeeContract | src/contract/contract.service.ts:56-73 | The owner, and any requester without the client role, get the same detail as a call without a requester. |
| Rentals.Admit | src/rentals/rentals.service.ts:36-48 | The request checks, in order: equipment exists, then not in repair, then stock of at least 1, then end date after start date. |
| Rentals.CreateRequestAsWritten | src/rentals/rentals.service.ts:50-60 | As written: succeeds under the same conditions as the corrected version, but every contract it creates has monthly value 0. |
| Rentals.CreateRequest | src/rentals/rentals.service.ts:35-67 | Failure conditions, in order, with the exact errors (unknown equipment, under repair, no stock, then end date not after start date); it succeeds exactly when all checks pass. On success it adds exactly one pending, enabled rental for the client, equipment and dates, and saves a contract priced from the equipment. It decrements that equipment's stock by one, keeping it at or above 0, and leaves everything else unchanged. |
| Rentals.AsWrittenLosesPrice | src/rentals/rentals.service.ts:58-60 | For any equipment with a non-zero price, the as-written and corrected requests produce the same rental but contracts with different monthly values. |
| Rentals.RequestableIffAvailable | src/rentals/rentals.service.ts:38-44 | With valid dates, a request succeeds exactly when the equipment exists and its projected status is `available`. |
| Rentals.MayUpdateStatusIsGuard | src/rentals/rentals.service.ts:105-110 | The inline admin-or-salesperson check grants exactly what the role guard grants for those two roles. |
| Rentals.UpdateStatus | src/rentals/rentals.service.ts:93-122 | A missing rental fails NotFound, checked before the role. Without admin or salesperson the call fails Forbidden. It succeeds exactly when the rental exists, the role fits, and a rejection can reach the equipment. Only the status of that rental changes. A rejection gives one unit back to stock; other targets leave the catalog as it was. |
| Rentals.RejectUndoesRequestStock | src/rentals/rentals.service.ts:113-117 | Rejecting a rental just requested restores the catalog exactly. |
| Rentals.RejectTwiceAddsTwo | src/rentals/rentals.service.ts:113-117 | Rejecting twice gives back two units: there is no prior-status check. |
| Rentals.RentalsPreserveStockNonNegative | src/rentals/rentals.service.ts:42-64 | A request and a status update both keep every stock at or above 0. |
| Rentals.FindByClient | src/rentals/rentals.service.ts:69-74 | Returns exactly the rentals of the given client. |
| Rentals.RequestListedForClient | src/rentals/rentals.service.ts:50-62 | A new request is listed among its client's rentals, its contract among the client's contracts, and other clients' listings are unchanged. |
| Rentals.FindAll | src/rentals/rentals.service.ts:76-91 | A rental is listed exactly when it matches the status if one is given, starts at or after the start bound if one is given, and, when both bounds are given, starts at or before the end bound. |
| Rentals.EndDateAloneIgnored | src/rentals/rentals.service.ts:81-85 | An end bound given without a start bound filters nothing. |
| Rentals.GetActiveDeliveries | src/rentals/rentals.service.ts:124-132 | Returns exactly the approved rentals starting at or after now. |
| Rentals.ActiveDeliveriesAreFiltered | src/rentals/rentals.service.ts:124-132 | Equals the status-and-start-bound listing for approved and now. |
| Rentals.RevenueSplit | src/rentals/rentals.service.ts:144-149 | The revenue sum does not depend on the order in which rentals are taken. |
| Rentals.GetRentalMetrics | src/rentals/rentals.service.ts:134-156 | `active` is the number of approved rentals and `pending` the number of pending ones. `revenue` is the sum of the approved rentals' equipment prices, where a missing equipment counts nothing, and it is 0 when none are approved. |
| Labs.ReportBrokenEquipment | src/labs/labs.service.ts:71-94 | A missing rental fails NotFound; a reporter other than the rental's client fails BadRequest; either way nothing is written. It succeeds exactly when the rental, its client (the reporter) and its equipment exist. On success it creates one unrepaired lab for that equipment and reporter with the notes, disables the rental, and flags the equipment in repair with its stock unchanged. |
| Labs.MarkAsRepaired | src/labs/labs.service.ts:96-113 | A missing lab fails "Lab record not found". Otherwise it marks the lab repaired, clears the equipment's repair flag, raises its stock by exactly 1, and leaves the other tables unchanged. |
| Labs.MarkAsRepairedTwiceAddsTwo | src/labs/labs.service.ts:104-110 | A second call raises the stock again: nothing checks an earlier repair. |
| Labs.ReportedEquipmentNotRequestable | src/labs/labs.service.ts:87-91 | After a report, the equipment's status is in-repair and any rental request for it fails "under repair". |
| Labs.RepairAfterReportRestocks | src/labs/labs.service.ts:96-113 | A report followed by the repair of its lab leaves the equipment out of repair with one more unit, and available when its stock was not negative. |
| Labs.LabsPreserveStockNonNegative | src/labs/labs.service.ts:87-110 | Reporting and repairing both keep every stock at or above 0. |
| Labs.FindOne | src/labs/labs.service.ts:39-48 | Looked up by the lab's own id: fails `Lab with ID <id> not found` exactly when the id is absent, otherwise returns the stored lab. |
| Labs.Update | src/labs/labs.service.ts:50-59 | A missing id fails NotFound. Otherwise each supplied column overwrites, the others stay, and only that record changes. |
| Labs.Remove | src/labs/labs.service.ts:61-69 | A missing id fails NotFound; otherwise exactly that record goes. |
| Labs.UpdatedLabIsFound | src/labs/labs.service.ts:39-59 | After an update, the record is found with the merged columns, and every other record is found as before. |
| Labs.RemovedLabNotFound | src/labs/labs.service.ts:61-69 | A removed lab is no longer found. |
| Labs.FindOneAsWritten | src/labs/labs.service.ts:39-45 | As written, the lookup key is the text of the numeric id: it succeeds exactly when that text is a stored key. |
| Labs.UpdateAsWritten | src/labs/labs.service.ts:50-53 | Same as `FindOneAsWritten`, for update. |
| Labs.RemoveAsWritten | src/labs/labs.service.ts:61-64 | Same as `FindOneAsWritten`, for remove. |
| Labs.NumberTextNotUuid | src/labs/entities/lab.entity.ts:7-8 | No number's text has the shape of the uuid the labs table uses as its key. |
| Labs.NumericLookupNeverFinds | src/labs/labs.service.ts:39-69 | With uuid keys, numeric `findOne`, `update` and `remove` always fail NotFound. |
| Decimal.DigitsValueOfNatToString | src/contract/contract.service.ts:21-22 | The decimal text of a number reads back as that number (round trip). |
| Decimal.NatToStringLength | src/contract/contract.service.ts:22 | A number below 10000 has at most four digits. |

## Left out

- Controllers, authentication, JWT strategy and the users module are not modelled. The guard's input (the declared roles and the principal) is a parameter.
- Logging (`console.log`, `Logger`), timestamps the database fills in (`createdAt`, `reportedAt`), and eager or lazy loading of relations beyond the fields the operations read are not modelled.
- Concurrency: each operation is atomic here. In the source the awaits of one request can interleave with another's.
- Date strings: dates are integer timestamps. The parsing in `new Date(...)` and the comparison of date strings in the DTOs are not modelled.
- Equipments.Create: the `releaseDate` conversion and the column defaults the database fills in are not modelled.
- Equipments.Lower: only ASCII letters are lower-cased, whereas `toLowerCase` also folds non-ASCII letters.
- Dangling relations: the source would throw a `TypeError` after some of its writes had already happened. The model answers Internal "Cannot read properties of null" and writes nothing. Foreign keys in the schema make these cases unreachable. The cases are: the equipment of a rental being rejected, of a reported rental, or of a lab being repaired; and the owner of a contract.
- Labs `create` and `findAll`, and the `findAll` of roles, deliveries and contracts: these are plain pass-throughs to the repository. The lab DTOs are not part of this model. `Labs.LabPatch` covers the lab's writable columns.
- The role description column is NOT NULL in the database. A role created without a description would fail at the database; the model stores it as absent.
- Contracts.CreateFromRental: the id `CTR-<millis>` is not required to be fresh. Two contracts saved in the same millisecond share an id, and the second save overwrites the first; the model states exactly this.
- Rentals.GetRentalMetrics: `Number(...) || 0` on the SQL sum is modelled as the integer sum. Decimal prices and NaN are not modelled.
- Labs.NumericLookupNeverFinds: on PostgreSQL the `id` column is of type uuid, and the database rejects the text "NaN" or "42" as a uuid before the service's own not-found check runs, so the real answer is a 500 rather than NotFound. The model compares keys as strings and does not model the database's type cast; what it states is that no numeric id ever reaches a lab.
- Equipments.RemoveAsWritten: the spec relations are declared with `cascade: true` (src/equipments/entities/equipment.entity.ts:54, 58, 62), and `remove` loads them before calling `equipmentRepo.remove`. In TypeORM that option includes cascading removal, which would delete a loaded spec row along with the equipment whatever the casing of its type. The model does not model TypeORM cascades: it states only what the service's own dispatch removes.
- Equipments.Remove: `@JoinColumn()` puts the foreign key to each spec table on the equipment row (src/equipments/entities/equipment.entity.ts:54-63), with no `onDelete` option, yet `remove` deletes the spec row (src/equipments/equipments.service.ts:138, 144, 150) before the equipment row that still references it (line 155). On PostgreSQL that first delete may be refused and answered with a 500. The model treats each delete as succeeding, in the source's order, and does not model foreign-key enforcement; the same holds for Equipments.RemoveAsWritten.
- Labs.NumberText: only integer and NaN arguments are modelled. Fractional and exponent forms of JavaScript numbers are left out; their text is never 36 characters long either.

## Findings

| source | as written | input that shows it | evidently intended | confidence | as-written member | corrected member |
|---|---|---|---|---|---|---|
| src/rentals/rentals.service.ts:50-60 with src/contract/contract.service.ts:25 | `createRequest` builds the rental with the stub relation `equipment: { id }` and passes the saved rental to `createFromRental`, which reads `rental.equipment?.price` and finds no price | any request for equipment whose price is not 0, say 1299: the contract's monthly value is 0 | the contract's monthly value is the equipment's price | high (not executed) | Rentals.CreateRequestAsWritten | Rentals.CreateRequest |
| src/equipments/equipments.service.ts:99-120 | `update` dispatches on the raw stored `type`, while `create` dispatches on `type.toLowerCase()` | an equipment created with type "Computer" and computer specs, then updated with `specifications`: the spec row is not merged | the spec of the equipment's variant is merged whatever the casing of its type | high (not executed) | Equipments.UpdateAsWritten | Equipments.Update |
| src/equipments/equipments.service.ts:135-153 | `remove` dispatches on the raw stored `type` | the same "Computer" equipment removed: its computer spec row stays behind, orphaned | the spec row is removed with the equipment | low (not executed; the relations carry `cascade: true`, whose cascading removal may delete the spec row anyway, and the foreign key on the equipment row may make the spec-first delete fail on every path)  | Equipments.RemoveAsWritten | Equipments.Remove |
| src/labs/labs.service.ts:39-69 | `findOne`, `update` and `remove` take `id: number` and look up `id.toString()`, but lab ids are generated uuids | GET /labs/<a lab's uuid>: the controller's `+id` yields NaN, and the database rejects the text "NaN" as a uuid (500); no numeric id ever reaches a lab | look the record up by its string id | medium (not executed) | Labs.FindOneAsWritten | Labs.FindOne |
