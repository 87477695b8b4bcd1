/** The contract generator (`ContractService`, src/contract/contract.service.ts):
    derives a billing contract from a rental, lists a user's contracts, and shows
    one contract's detail while hiding other clients' contracts. */
module Contracts {
  import opened Base
  import opened Decimal
  import opened Users
  import opened Equipments
  import opened Entities

  /** `CTR-${Date.now()}`, for the clock reading `stamp` in milliseconds. */
  function ContractIdFor(stamp: nat): string
  {
    "CTR-" + NatToString(stamp)
  }

  /** `CN-${Math.floor(Math.random() * 10000)}`, for the floored draw. */
  function ContractNumberFor(draw: nat): string
    requires draw < 10000
  {
    "CN-" + NatToString(draw)
  }

  /** `rental.equipment?.price || 0`: the loaded equipment's price, else 0. */
  function MonthlyValue(equipmentPrice: Option<int>): int
  {
    match equipmentPrice
    case Some(p) => p
    case None => 0
  }

  /** `createFromRental`: builds the contract for `rental` on behalf of `userId`
      and saves it under its generated id (a save onto an existing id replaces
      that row). `equipmentPrice` is the price on the rental's equipment relation
      as the caller passed it: None when that relation is absent or carries no
      price. `stamp` is the clock in milliseconds, `draw` the floored random draw. */
  function CreateFromRental(contracts: map<string, Contract>, userId: Id, rental: Rental,
                            equipmentPrice: Option<int>, stamp: nat, draw: nat): (r: (map<string, Contract>, Contract))
    requires draw < 10000
    ensures r.1.startDate == rental.startDate && r.1.endDate == rental.endDate
    ensures r.1.userId == userId && r.1.rentalId == Some(rental.id)
    ensures equipmentPrice.Some? ==> r.1.monthlyValue == equipmentPrice.value
    ensures equipmentPrice.None? ==> r.1.monthlyValue == 0
    ensures |r.1.contractId| > 4 && r.1.contractId[..4] == "CTR-"
    ensures IsDigits(r.1.contractId[4..]) && DigitsValue(r.1.contractId[4..]) == stamp
    ensures 3 < |r.1.contractNumber| <= 7 && r.1.contractNumber[..3] == "CN-"
    ensures IsDigits(r.1.contractNumber[3..]) && DigitsValue(r.1.contractNumber[3..]) < 10000
    ensures r.0 == contracts[r.1.contractId := r.1]
  {
    DigitsValueOfNatToString(stamp);
    DigitsValueOfNatToString(draw);
    NatToStringLength(draw);
    var cid := ContractIdFor(stamp);
    var cnum := ContractNumberFor(draw);
    assert cid[4..] == NatToString(stamp);
    assert cnum[3..] == NatToString(draw);
    var c := Contract(cid, cnum, rental.startDate, rental.endDate, MonthlyValue(equipmentPrice), userId, Some(rental.id));
    (contracts[cid := c], c)
  }

  /** Distinct clock readings give distinct contract ids. */
  lemma ContractIdsDistinct(m: nat, n: nat)
    requires m != n
    ensures ContractIdFor(m) != ContractIdFor(n)
  {
    if ContractIdFor(m) == ContractIdFor(n) {
      assert ContractIdFor(m)[4..] == NatToString(m);
      assert ContractIdFor(n)[4..] == NatToString(n);
      NatToStringInjective(m, n);
    }
  }

  /** `findByUser`: exactly the contracts whose user is `userId`. */
  function FindByUser(contracts: map<string, Contract>, userId: Id): (r: map<string, Contract>)
    ensures forall cid :: cid in r <==> cid in contracts && contracts[cid].userId == userId
    ensures forall cid :: cid in r ==> r[cid] == contracts[cid]
  {
    map cid | cid in contracts && contracts[cid].userId == userId :: contracts[cid]
  }

  /** A field of the detail's rental summary: its value, or 'N/A'. */
  datatype Shown<T> = Shown(value: T) | NotAvailable

  datatype OwnerSummary = OwnerSummary(id: Id, name: string, email: string)

  datatype RentalSummary = RentalSummary(id: Shown<Id>, equipmentName: Shown<string>, startDate: Shown<int>, endDate: Shown<int>)

  /** `ContractDetailDto`. */
  datatype ContractDetail = ContractDetail(
    contractId: string,
    contractNumber: string,
    startDate: int,
    endDate: int,
    monthlyValue: int,
    owner: OwnerSummary,
    rental: RentalSummary)

  function ContractNotFound(id: string): Error
  {
    Error(NotFound, "Contract with ID " + id + " not found")
  }

  /** The rental relation of a contract as loaded: present when it is set and its row exists. */
  function LoadedRental(s: Store, c: Contract): Option<Rental>
  {
    if c.rentalId.Some? && c.rentalId.value in s.rentals then Some(s.rentals[c.rentalId.value]) else None
  }

  /** The rental summary, each field 'N/A' when the rental or its equipment is missing. */
  function Summary(s: Store, c: Contract): (r: RentalSummary)
    ensures LoadedRental(s, c).None? ==> r == RentalSummary(NotAvailable, NotAvailable, NotAvailable, NotAvailable)
    ensures LoadedRental(s, c).Some? ==>
              && r.id == Shown(LoadedRental(s, c).value.id)
              && r.startDate == Shown(LoadedRental(s, c).value.startDate)
              && r.endDate == Shown(LoadedRental(s, c).value.endDate)
              && r.equipmentName == (if LoadedRental(s, c).value.equipmentId in s.catalog.equipment
                                     then Shown(s.catalog.equipment[LoadedRental(s, c).value.equipmentId].name)
                                     else NotAvailable)
  {
    match LoadedRental(s, c)
    case None => RentalSummary(NotAvailable, NotAvailable, NotAvailable, NotAvailable)
    case Some(rental) =>
      RentalSummary(Shown(rental.id),
                    if rental.equipmentId in s.catalog.equipment
                    then Shown(s.catalog.equipment[rental.equipmentId].name) else NotAvailable,
                    Shown(rental.startDate), Shown(rental.endDate))
  }

  /** `findOne`: NotFound for a missing contract id, and the same NotFound when
      the requester holds the client role and does not own the contract (the
      check is skipped without a requester). Otherwise the detail projection. */
  function FindOne(s: Store, id: string, requester: Option<User>): (r: Result<ContractDetail>)
    ensures id !in s.contracts ==> r == Failure(ContractNotFound(id))
    ensures id in s.contracts && s.contracts[id].userId !in s.users ==> r == Failure(NullRelation)
    ensures (&& id in s.contracts && s.contracts[id].userId in s.users
             && requester.Some? && HasRole(requester.value, Client)
             && s.contracts[id].userId != requester.value.id) ==> r == Failure(ContractNotFound(id))
    ensures r.Success? ==> && id in s.contracts
                           && (requester.None? || !HasRole(requester.value, Client)
                               || s.contracts[id].userId == requester.value.id)
    ensures r.Success? ==> var c := s.contracts[id];
                           && r.value.contractId == c.contractId && r.value.contractNumber == c.contractNumber
                           && r.value.monthlyValue == c.monthlyValue
                           && r.value.startDate == c.startDate && r.value.endDate == c.endDate
                           && c.userId in s.users
                           && r.value.owner == OwnerSummary(c.userId, s.users[c.userId].fullName, s.users[c.userId].email)
                           && r.value.rental == Summary(s, c)
  {
    if id !in s.contracts then Failure(ContractNotFound(id))
    else
      var c := s.contracts[id];
      if c.userId !in s.users then Failure(NullRelation)
      else if requester.Some? && HasRole(requester.value, Client) && c.userId != requester.value.id then
        Failure(ContractNotFound(id))
      else
        var owner := s.users[c.userId];
        Success(ContractDetail(c.contractId, c.contractNumber, c.startDate, c.endDate, c.monthlyValue,
                               OwnerSummary(c.userId, owner.fullName, owner.email), Summary(s, c)))
  }

  /** A client who does not own a contract cannot tell it from a missing one:
      the answer is the one for the same store without that contract. */
  lemma ForeignContractLooksMissing(s: Store, id: string, u: User)
    requires id in s.contracts && s.contracts[id].userId in s.users
    requires HasRole(u, Client) && s.contracts[id].userId != u.id
    ensures FindOne(s, id, Some(u)) == FindOne(s.(contracts := s.contracts - {id}), id, Some(u))
    ensures FindOne(s, id, Some(u)).error.kind == NotFound
  {
  }

  /** The owner, and any requester without the client role, sees the contract. */
  lemma OwnerAndStaffSeeContract(s: Store, id: string, u: User)
    requires id in s.contracts && s.contracts[id].userId in s.users
    requires !HasRole(u, Client) || s.contracts[id].userId == u.id
    ensures FindOne(s, id, Some(u)).Success?
    ensures FindOne(s, id, Some(u)) == FindOne(s, id, None)
  {
  }
}
