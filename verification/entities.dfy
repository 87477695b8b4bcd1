/** The records the rental and lab workflows share, and the store they act on:
    the catalog plus the rental, contract, lab and user tables. */
module Entities {
  import opened Base
  import opened Users
  import opened Equipments

  datatype RentalStatus = Pending | Approved | Rejected | Completed

  /** A row of `rental_contracts`. Dates are timestamps. */
  datatype Rental = Rental(
    id: Id,
    clientId: Id,
    technicianId: Option<Id>,
    equipmentId: Id,
    startDate: int,
    endDate: int,
    status: RentalStatus,
    isDisabled: bool,
    approvedBy: Option<Id>,
    approvalDate: Option<int>,
    isDelivered: bool,
    deliveryNotes: Option<string>)

  /** A billing contract, keyed by its generated `contract_id`. */
  datatype Contract = Contract(
    contractId: string,
    contractNumber: string,
    startDate: int,
    endDate: int,
    monthlyValue: int,
    userId: Id,
    rentalId: Option<Id>)

  /** A repair record of the `labs` table. */
  datatype Lab = Lab(id: Id, equipmentId: Id, reportedBy: Id, notes: Option<string>, isRepaired: bool)

  datatype Store = Store(
    catalog: Catalog,
    rentals: map<Id, Rental>,
    contracts: map<string, Contract>,
    labs: map<Id, Lab>,
    users: map<Id, User>)

  /** No equipment row has negative stock. */
  ghost predicate StockNonNegative(s: Store)
  {
    forall id :: id in s.catalog.equipment ==> s.catalog.equipment[id].stock >= 0
  }
}
