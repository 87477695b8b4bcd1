/** The rental workflow (`RentalsService`, src/rentals/rentals.service.ts): rental
    requests against catalog availability, status transitions with their stock
    compensation, and the read-only projections. */
module Rentals {
  import opened Base
  import opened Users
  import opened RoleGuard
  import opened Equipments
  import opened Entities
  import opened Contracts

  /** `CreateRentalDto`. */
  datatype RentalRequest = RentalRequest(equipmentId: Id, startDate: int, endDate: int)

  const UnderRepair := Error(BadRequest, "This equipment is currently under repair")
  const NoStock := Error(BadRequest, "Equipment out of stock")
  const BadDates := Error(BadRequest, "End date must be after start date")
  const RentalNotFound := Error(NotFound, "Contract not found")
  const NotAllowed := Error(Forbidden, "Unauthorized to update status")

  /** The rental `createRequest` builds: pending, not disabled, no technician. */
  function NewRental(id: Id, clientId: Id, req: RentalRequest): Rental
  {
    Rental(id, clientId, None, req.equipmentId, req.startDate, req.endDate, Pending, false, None, None, false, None)
  }

  /** The checks of `createRequest`, in their order: the equipment must exist, not
      be under repair, have stock, and the dates must be ordered. */
  function Admit(s: Store, req: RentalRequest): (r: Result<Equipment>)
    ensures req.equipmentId !in s.catalog.equipment ==> r == Failure(NotFoundEn)
    ensures req.equipmentId in s.catalog.equipment ==>
              var e := s.catalog.equipment[req.equipmentId];
              && (e.isInRepair ==> r == Failure(UnderRepair))
              && (!e.isInRepair && e.stock < 1 ==> r == Failure(NoStock))
              && (!e.isInRepair && e.stock >= 1 && req.endDate <= req.startDate ==> r == Failure(BadDates))
              && (!e.isInRepair && e.stock >= 1 && req.endDate > req.startDate ==> r == Success(e))
  {
    if req.equipmentId !in s.catalog.equipment then Failure(NotFoundEn)
    else
      var e := s.catalog.equipment[req.equipmentId];
      if e.isInRepair then Failure(UnderRepair)
      else if e.stock < 1 then Failure(NoStock)
      else if req.endDate <= req.startDate then Failure(BadDates)
      else Success(e)
  }

  /** What a successful request returns: the new store, rental and contract. */
  datatype Created = Created(store: Store, rental: Rental, contract: Contract)

  /** `createRequest` as written: the contract generator receives the saved rental,
      whose equipment relation is the stub `{ id }` with no price, so the contract's
      monthly value is always 0. */
  function CreateRequestAsWritten(s: Store, clientId: Id, req: RentalRequest, rentalId: Id, stamp: nat, draw: nat): (r: Result<Created>)
    requires rentalId !in s.rentals
    requires draw < 10000
    ensures r.Success? <==> Admit(s, req).Success?
    ensures r.Success? ==> r.value.contract.monthlyValue == 0
  {
    match Admit(s, req)
    case Failure(err) => Failure(err)
    case Success(e) =>
      var rental := NewRental(rentalId, clientId, req);
      var (contracts, contract) := CreateFromRental(s.contracts, clientId, rental, None, stamp, draw);
      var catalog := UpdateStock(s.catalog, req.equipmentId, e.stock - 1).value.0;
      Success(Created(s.(catalog := catalog, rentals := s.rentals[rentalId := rental], contracts := contracts),
                      rental, contract))
  }

  /** `createRequest`, with the contract priced from the equipment as intended.
      Fails, in this order, when the equipment is missing, under repair (even with
      no stock), out of stock, or the end date is not after the start date; a
      failure returns no store, so nothing is written. On success it adds exactly
      one pending rental for this client, equipment and date range, saves its
      contract, and lowers the equipment's stock by one, which keeps it at or above 0. */
  function CreateRequest(s: Store, clientId: Id, req: RentalRequest, rentalId: Id, stamp: nat, draw: nat): (r: Result<Created>)
    requires rentalId !in s.rentals
    requires draw < 10000
    ensures req.equipmentId !in s.catalog.equipment ==> r == Failure(NotFoundEn)
    ensures req.equipmentId in s.catalog.equipment && s.catalog.equipment[req.equipmentId].isInRepair ==>
              r == Failure(UnderRepair)
    ensures (&& req.equipmentId in s.catalog.equipment && !s.catalog.equipment[req.equipmentId].isInRepair
             && s.catalog.equipment[req.equipmentId].stock < 1) ==> r == Failure(NoStock)
    ensures (&& req.equipmentId in s.catalog.equipment && !s.catalog.equipment[req.equipmentId].isInRepair
             && s.catalog.equipment[req.equipmentId].stock >= 1 && req.endDate <= req.startDate) ==> r == Failure(BadDates)
    ensures r.Success? <==> && req.equipmentId in s.catalog.equipment
                            && !s.catalog.equipment[req.equipmentId].isInRepair
                            && s.catalog.equipment[req.equipmentId].stock >= 1
                            && req.endDate > req.startDate
    ensures r.Success? ==> var e := s.catalog.equipment[req.equipmentId];
                           var t := r.value.store;
                           && r.value.rental.status == Pending && !r.value.rental.isDisabled
                           && r.value.rental.clientId == clientId && r.value.rental.equipmentId == req.equipmentId
                           && r.value.rental.startDate == req.startDate && r.value.rental.endDate == req.endDate
                           && t.rentals == s.rentals[rentalId := r.value.rental]
                           && |t.rentals| == |s.rentals| + 1
                           && t.contracts == s.contracts[r.value.contract.contractId := r.value.contract]
                           && r.value.contract.rentalId == Some(rentalId) && r.value.contract.userId == clientId
                           && r.value.contract.monthlyValue == e.price
                           && t.catalog == s.catalog.(equipment := s.catalog.equipment[req.equipmentId := e.(stock := e.stock - 1)])
                           && t.catalog.equipment[req.equipmentId].stock >= 0
                           && t.labs == s.labs && t.users == s.users
  {
    match Admit(s, req)
    case Failure(err) => Failure(err)
    case Success(e) =>
      var rental := NewRental(rentalId, clientId, req);
      var (contracts, contract) := CreateFromRental(s.contracts, clientId, rental, Some(e.price), stamp, draw);
      var catalog := UpdateStock(s.catalog, req.equipmentId, e.stock - 1).value.0;
      Success(Created(s.(catalog := catalog, rentals := s.rentals[rentalId := rental], contracts := contracts),
                      rental, contract))
  }

  /** The two versions differ exactly in the contract's monthly value: as written
      it is 0 whatever the price, so every equipment with a non-zero price shows
      the discrepancy. */
  lemma AsWrittenLosesPrice(s: Store, clientId: Id, req: RentalRequest, rentalId: Id, stamp: nat, draw: nat)
    requires rentalId !in s.rentals && draw < 10000
    requires CreateRequest(s, clientId, req, rentalId, stamp, draw).Success?
    requires s.catalog.equipment[req.equipmentId].price != 0
    ensures CreateRequestAsWritten(s, clientId, req, rentalId, stamp, draw).Success?
    ensures CreateRequestAsWritten(s, clientId, req, rentalId, stamp, draw).value.contract.monthlyValue
         != CreateRequest(s, clientId, req, rentalId, stamp, draw).value.contract.monthlyValue
    ensures CreateRequestAsWritten(s, clientId, req, rentalId, stamp, draw).value.rental
         == CreateRequest(s, clientId, req, rentalId, stamp, draw).value.rental
  {
  }

  /** A request can only pass the repair and stock checks on equipment whose
      projected status is `available`. */
  lemma RequestableIffAvailable(s: Store, clientId: Id, req: RentalRequest, rentalId: Id, stamp: nat, draw: nat)
    requires rentalId !in s.rentals && draw < 10000
    requires req.endDate > req.startDate
    ensures CreateRequest(s, clientId, req, rentalId, stamp, draw).Success?
        <==> req.equipmentId in s.catalog.equipment && StatusOf(s.catalog.equipment[req.equipmentId]) == Available
  {
    if req.equipmentId in s.catalog.equipment {
      StatusCases(s.catalog.equipment[req.equipmentId]);
    }
  }

  // ---------------------------------------------------------------- status

  /** The role check of `updateStatus`: admin or salesperson. */
  predicate MayUpdateStatus(u: User)
  {
    HasRole(u, Admin) || HasRole(u, Salesperson)
  }

  /** The role check agrees with the role guard declared for admin and salesperson. */
  lemma MayUpdateStatusIsGuard(u: User)
    ensures MayUpdateStatus(u) <==> CanActivate(Some([Admin, Salesperson]), Some(u)).Success?
  {
    if MayUpdateStatus(u) {
      var role := if HasRole(u, Admin) then Admin else Salesperson;
      var i :| 0 <= i < |u.roles| && u.roles[i] == role;
      assert u.roles[i] in [Admin, Salesperson];
    }
  }

  /** `updateStatus`: NotFound for a missing rental, checked before the role;
      Forbidden for a user with neither admin nor salesperson. `rejected`, from
      any prior status, gives one unit back to the equipment's stock; every other
      target (including `approved` from `pending`) only writes the status. */
  function UpdateStatus(s: Store, id: Id, target: RentalStatus, user: User): (r: Result<(Store, Rental)>)
    ensures id !in s.rentals ==> r == Failure(RentalNotFound)
    ensures id in s.rentals && !MayUpdateStatus(user) ==> r == Failure(NotAllowed)
    ensures r.Success? <==> && id in s.rentals && MayUpdateStatus(user)
                            && (target == Rejected ==> s.rentals[id].equipmentId in s.catalog.equipment)
    ensures r.Success? ==> && r.value.1 == s.rentals[id].(status := target)
                           && r.value.0.rentals == s.rentals[id := r.value.1]
                           && r.value.0.contracts == s.contracts && r.value.0.labs == s.labs
                           && r.value.0.users == s.users
    ensures r.Success? && target != Rejected ==> r.value.0.catalog == s.catalog
    ensures r.Success? && target == Rejected ==>
              var eid := s.rentals[id].equipmentId;
              var e := s.catalog.equipment[eid];
              r.value.0.catalog == s.catalog.(equipment := s.catalog.equipment[eid := e.(stock := e.stock + 1)])
  {
    if id !in s.rentals then Failure(RentalNotFound)
    else if !MayUpdateStatus(user) then Failure(NotAllowed)
    else
      var rental := s.rentals[id];
      var catalog :=
        if target == Approved && rental.status == Pending then Success(s.catalog)
        else if target == Rejected then
          if rental.equipmentId !in s.catalog.equipment then Failure(NullRelation)
          else
            var e := s.catalog.equipment[rental.equipmentId];
            Success(UpdateStock(s.catalog, rental.equipmentId, e.stock + 1).value.0)
        else Success(s.catalog);
      match catalog
      case Failure(err) => Failure(err)
      case Success(c) =>
        var updated := rental.(status := target);
        Success((s.(catalog := c, rentals := s.rentals[id := updated]), updated))
  }

  /** Rejection compensates the request: rejecting a rental just created restores
      the catalog exactly. */
  lemma RejectUndoesRequestStock(s: Store, clientId: Id, req: RentalRequest, rentalId: Id, stamp: nat, draw: nat, staff: User)
    requires rentalId !in s.rentals && draw < 10000
    requires CreateRequest(s, clientId, req, rentalId, stamp, draw).Success?
    requires MayUpdateStatus(staff)
    ensures var t := CreateRequest(s, clientId, req, rentalId, stamp, draw).value.store;
            && UpdateStatus(t, rentalId, Rejected, staff).Success?
            && UpdateStatus(t, rentalId, Rejected, staff).value.0.catalog == s.catalog
  {
    var t := CreateRequest(s, clientId, req, rentalId, stamp, draw).value.store;
    var e := s.catalog.equipment[req.equipmentId];
    assert t.rentals[rentalId].equipmentId == req.equipmentId;
    assert s.catalog.equipment[req.equipmentId := e.(stock := e.stock - 1)][req.equipmentId := e] == s.catalog.equipment;
  }

  /** Rejection is not idempotent: rejecting twice gives back two units. */
  lemma RejectTwiceAddsTwo(s: Store, id: Id, staff: User)
    requires id in s.rentals && MayUpdateStatus(staff)
    requires s.rentals[id].equipmentId in s.catalog.equipment
    ensures var once := UpdateStatus(s, id, Rejected, staff).value.0;
            var eid := s.rentals[id].equipmentId;
            && UpdateStatus(once, id, Rejected, staff).Success?
            && UpdateStatus(once, id, Rejected, staff).value.0.catalog.equipment[eid].stock
               == s.catalog.equipment[eid].stock + 2
  {
  }

  // ---------------------------------------------------------------- invariant

  /** Both workflow steps of this service keep every stock at or above zero. */
  lemma RentalsPreserveStockNonNegative(s: Store, clientId: Id, req: RentalRequest, rentalId: Id,
                                        stamp: nat, draw: nat, id: Id, target: RentalStatus, user: User)
    requires StockNonNegative(s)
    requires rentalId !in s.rentals && draw < 10000
    ensures CreateRequest(s, clientId, req, rentalId, stamp, draw).Success? ==>
              StockNonNegative(CreateRequest(s, clientId, req, rentalId, stamp, draw).value.store)
    ensures UpdateStatus(s, id, target, user).Success? ==>
              StockNonNegative(UpdateStatus(s, id, target, user).value.0)
  {
  }

  // ---------------------------------------------------------------- projections

  /** `findByClient`: the rentals of one client. */
  function FindByClient(s: Store, clientId: Id): (r: map<Id, Rental>)
    ensures forall id :: id in r <==> id in s.rentals && s.rentals[id].clientId == clientId
    ensures forall id :: id in r ==> r[id] == s.rentals[id]
  {
    map id | id in s.rentals && s.rentals[id].clientId == clientId :: s.rentals[id]
  }

  /** A successful request shows up among its client's rentals and among no one
      else's. */
  lemma RequestListedForClient(s: Store, clientId: Id, req: RentalRequest, rentalId: Id, stamp: nat, draw: nat, other: Id)
    requires rentalId !in s.rentals && draw < 10000
    requires CreateRequest(s, clientId, req, rentalId, stamp, draw).Success?
    requires other != clientId
    ensures var t := CreateRequest(s, clientId, req, rentalId, stamp, draw).value.store;
            && rentalId in FindByClient(t, clientId)
            && FindByClient(t, other) == FindByClient(s, other)
            && CreateRequest(s, clientId, req, rentalId, stamp, draw).value.contract.contractId
               in FindByUser(t.contracts, clientId)
  {
  }

  /** `FilterRentalsDto`. */
  datatype RentalFilter = RentalFilter(status: Option<RentalStatus>, startDate: Option<int>, endDate: Option<int>)

  /** The condition `findAll` puts on `startDate`. */
  datatype StartCondition = AnyStart | Between(low: int, high: int) | AtLeast(low: int)

  /** The `where` object `findAll` builds. */
  datatype Where = Where(status: Option<RentalStatus>, start: StartCondition)

  function BuildWhere(f: RentalFilter): Where
  {
    Where(f.status,
          if f.startDate.Some? && f.endDate.Some? then Between(f.startDate.value, f.endDate.value)
          else if f.startDate.Some? then AtLeast(f.startDate.value)
          else AnyStart)
  }

  /** How the repository evaluates a `where` object on a row. */
  predicate Satisfies(w: Where, r: Rental)
  {
    && (w.status.Some? ==> r.status == w.status.value)
    && match w.start
       case AnyStart => true
       case Between(low, high) => low <= r.startDate <= high
       case AtLeast(low) => low <= r.startDate
  }

  /** `findAll`: status equality when given; the start date in the inclusive
      range when both bounds are given, at or after the lower bound when only
      that is given. An end date given alone constrains nothing. */
  function FindAll(s: Store, f: RentalFilter): (r: map<Id, Rental>)
    ensures forall id :: id in r <==>
              && id in s.rentals
              && (f.status.Some? ==> s.rentals[id].status == f.status.value)
              && (f.startDate.Some? ==> f.startDate.value <= s.rentals[id].startDate)
              && (f.startDate.Some? && f.endDate.Some? ==> s.rentals[id].startDate <= f.endDate.value)
    ensures forall id :: id in r ==> r[id] == s.rentals[id]
  {
    map id | id in s.rentals && Satisfies(BuildWhere(f), s.rentals[id]) :: s.rentals[id]
  }

  /** An end date given without a start date is ignored. */
  lemma EndDateAloneIgnored(s: Store, status: Option<RentalStatus>, end: int)
    ensures FindAll(s, RentalFilter(status, None, Some(end))) == FindAll(s, RentalFilter(status, None, None))
  {
  }

  /** `getActiveDeliveries`: approved rentals starting at or after `now`. */
  function GetActiveDeliveries(s: Store, now: int): (r: map<Id, Rental>)
    ensures forall id :: id in r <==> id in s.rentals && s.rentals[id].status == Approved && s.rentals[id].startDate >= now
    ensures forall id :: id in r ==> r[id] == s.rentals[id]
  {
    map id | id in s.rentals && Satisfies(Where(Some(Approved), AtLeast(now)), s.rentals[id]) :: s.rentals[id]
  }

  /** Active deliveries are what `findAll` returns for status approved and start
      date `now`. */
  lemma ActiveDeliveriesAreFiltered(s: Store, now: int)
    ensures GetActiveDeliveries(s, now) == FindAll(s, RentalFilter(Some(Approved), Some(now), None))
  {
  }

  // ---------------------------------------------------------------- metrics

  datatype Metrics = Metrics(active: nat, pending: nat, revenue: int)

  /** The rentals among `ids` with status `st`. */
  ghost function WithStatus(s: Store, ids: set<Id>, st: RentalStatus): set<Id>
  {
    set id | id in ids && id in s.rentals && s.rentals[id].status == st
  }

  /** A rental's contribution to `SUM(equipment.price)` over the left join: its
      equipment's price, nothing when the equipment row is missing. */
  function PriceOf(s: Store, r: Rental): int
  {
    if r.equipmentId in s.catalog.equipment then s.catalog.equipment[r.equipmentId].price else 0
  }

  /** The sum of the equipment prices of the rentals `ids`. */
  ghost function Revenue(s: Store, ids: set<Id>): int
    requires ids <= s.rentals.Keys
    decreases ids
  {
    if ids == {} then 0
    else
      var id :| id in ids;
      PriceOf(s, s.rentals[id]) + Revenue(s, ids - {id})
  }

  /** The sum does not depend on the order rentals are taken in. */
  lemma {:induction false} RevenueSplit(s: Store, ids: set<Id>, x: Id)
    requires ids <= s.rentals.Keys && x in ids
    ensures Revenue(s, ids) == PriceOf(s, s.rentals[x]) + Revenue(s, ids - {x})
    decreases ids
  {
    var y :| y in ids && Revenue(s, ids) == PriceOf(s, s.rentals[y]) + Revenue(s, ids - {y});
    if y != x {
      RevenueSplit(s, ids - {y}, x);
      RevenueSplit(s, ids - {x}, y);
      assert ids - {y} - {x} == ids - {x} - {y};
    }
  }

  /** Adding one rental to `ids` adds it to the rentals with status `st` exactly
      when it has that status. */
  lemma WithStatusStep(s: Store, ids: set<Id>, id: Id, st: RentalStatus)
    requires id in s.rentals && id !in ids
    ensures s.rentals[id].status == st ==> WithStatus(s, ids + {id}, st) == WithStatus(s, ids, st) + {id}
    ensures s.rentals[id].status == st ==> |WithStatus(s, ids + {id}, st)| == |WithStatus(s, ids, st)| + 1
    ensures s.rentals[id].status != st ==> WithStatus(s, ids + {id}, st) == WithStatus(s, ids, st)
  {
    if s.rentals[id].status == st {
      assert WithStatus(s, ids + {id}, st) == WithStatus(s, ids, st) + {id};
    } else {
      assert WithStatus(s, ids + {id}, st) == WithStatus(s, ids, st);
    }
  }

  /** Adding a rental not yet counted adds its price to the sum. */
  lemma RevenueStep(s: Store, ids: set<Id>, id: Id)
    requires ids <= s.rentals.Keys && id in s.rentals && id !in ids
    ensures Revenue(s, ids + {id}) == PriceOf(s, s.rentals[id]) + Revenue(s, ids)
  {
    RevenueSplit(s, ids + {id}, id);
    assert ids + {id} - {id} == ids;
  }

  /** The tallies of the metrics loop once the rentals `done` have been visited. */
  ghost predicate Tallied(s: Store, done: set<Id>, active: int, pending: int, revenue: int)
  {
    && done <= s.rentals.Keys
    && active == |WithStatus(s, done, Approved)|
    && pending == |WithStatus(s, done, Pending)|
    && revenue == Revenue(s, WithStatus(s, done, Approved))
  }

  /** Visiting one more rental advances the tallies by its contribution. */
  lemma TalliedStep(s: Store, done: set<Id>, id: Id, active: int, pending: int, revenue: int)
    requires Tallied(s, done, active, pending, revenue)
    requires id in s.rentals && id !in done
    ensures var st := s.rentals[id].status;
            Tallied(s, done + {id},
                    if st == Approved then active + 1 else active,
                    if st == Pending then pending + 1 else pending,
                    if st == Approved then revenue + PriceOf(s, s.rentals[id]) else revenue)
  {
    WithStatusStep(s, done, id, Approved);
    WithStatusStep(s, done, id, Pending);
    if s.rentals[id].status == Approved {
      RevenueStep(s, WithStatus(s, done, Approved), id);
    }
  }

  /** `getRentalMetrics`: the number of approved ("active") and pending rentals,
      and the summed equipment price of the approved ones, 0 when there are none. */
  method GetRentalMetrics(s: Store) returns (m: Metrics)
    ensures m.active == |WithStatus(s, s.rentals.Keys, Approved)|
    ensures m.pending == |WithStatus(s, s.rentals.Keys, Pending)|
    ensures m.revenue == Revenue(s, WithStatus(s, s.rentals.Keys, Approved))
    ensures WithStatus(s, s.rentals.Keys, Approved) == {} ==> m.revenue == 0
  {
    var todo := s.rentals.Keys;
    ghost var done: set<Id> := {};
    var active, pending, revenue := 0, 0, 0;
    assert WithStatus(s, done, Approved) == {} && WithStatus(s, done, Pending) == {};
    while todo != {}
      invariant todo <= s.rentals.Keys && done == s.rentals.Keys - todo
      invariant active >= 0 && pending >= 0
      invariant Tallied(s, done, active, pending, revenue)
      decreases todo
    {
      var id :| id in todo;
      var rental := s.rentals[id];
      TalliedStep(s, done, id, active, pending, revenue);
      if rental.status == Approved {
        active := active + 1;
        revenue := revenue + PriceOf(s, rental);
      }
      if rental.status == Pending {
        pending := pending + 1;
      }
      todo := todo - {id};
      done := done + {id};
    }
    assert done == s.rentals.Keys;
    m := Metrics(active, pending, revenue);
  }
}
