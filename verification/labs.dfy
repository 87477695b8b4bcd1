/** The repair workflow (`LabsService`, src/labs/labs.service.ts): a client reports
    a rented equipment broken, which disables the rental and sends the equipment
    to the lab; a technician marks the repair done, which returns one unit to
    stock. Plus the lookup, merge and removal of lab records. */
module Labs {
  import opened Base
  import opened Decimal
  import opened Users
  import opened Equipments
  import opened Entities
  import Rentals

  const RentalNotFound := Error(NotFound, "Contract not found")
  const UnauthorizedReport := Error(BadRequest, "Unauthorized report")
  const LabRecordNotFound := Error(NotFound, "Lab record not found")

  function LabNotFound(id: string): Error
  {
    Error(NotFound, "Lab with ID " + id + " not found")
  }

  /** `reportBrokenEquipment`: NotFound for a missing rental, BadRequest when the
      reporter is not the rental's client. Otherwise one new lab record for the
      rental's equipment, reported by that client with the given notes and not yet
      repaired; the rental is disabled and the equipment flagged as in repair,
      with its stock untouched. A failure writes nothing. */
  function ReportBrokenEquipment(s: Store, userId: Id, rentalId: Id, notes: Option<string>, labId: Id): (r: Result<(Store, Lab)>)
    requires labId !in s.labs
    ensures rentalId !in s.rentals ==> r == Failure(RentalNotFound)
    ensures (&& rentalId in s.rentals && s.rentals[rentalId].clientId in s.users
             && s.rentals[rentalId].clientId != userId) ==> r == Failure(UnauthorizedReport)
    ensures r.Success? <==> && rentalId in s.rentals
                            && s.rentals[rentalId].clientId in s.users
                            && s.rentals[rentalId].clientId == userId
                            && s.rentals[rentalId].equipmentId in s.catalog.equipment
    ensures r.Success? ==> var rental := s.rentals[rentalId];
                           var e := s.catalog.equipment[rental.equipmentId];
                           var t := r.value.0;
                           && r.value.1 == Lab(labId, rental.equipmentId, userId, notes, false)
                           && t.labs == s.labs[labId := r.value.1] && |t.labs| == |s.labs| + 1
                           && t.rentals == s.rentals[rentalId := rental.(isDisabled := true)]
                           && t.catalog == s.catalog.(equipment := s.catalog.equipment[rental.equipmentId := e.(isInRepair := true)])
                           && t.catalog.equipment[rental.equipmentId].stock == e.stock
                           && t.contracts == s.contracts && t.users == s.users
  {
    if rentalId !in s.rentals then Failure(RentalNotFound)
    else
      var rental := s.rentals[rentalId];
      if rental.clientId !in s.users then Failure(NullRelation)
      else if rental.clientId != userId then Failure(UnauthorizedReport)
      else if rental.equipmentId !in s.catalog.equipment then Failure(NullRelation)
      else
        var e := s.catalog.equipment[rental.equipmentId];
        var lab := Lab(labId, rental.equipmentId, rental.clientId, notes, false);
        Success((s.(labs := s.labs[labId := lab],
                    rentals := s.rentals[rentalId := rental.(isDisabled := true)],
                    catalog := s.catalog.(equipment := s.catalog.equipment[rental.equipmentId := e.(isInRepair := true)])),
                 lab))
  }

  /** `markAsRepaired`: NotFound for a missing lab record. Otherwise the record is
      marked repaired, the equipment's repair flag cleared and its stock raised by
      one. A record already repaired is not refused. */
  function MarkAsRepaired(s: Store, labId: Id): (r: Result<Store>)
    ensures labId !in s.labs ==> r == Failure(LabRecordNotFound)
    ensures r.Success? <==> labId in s.labs && s.labs[labId].equipmentId in s.catalog.equipment
    ensures r.Success? ==> var lab := s.labs[labId];
                           var e := s.catalog.equipment[lab.equipmentId];
                           && r.value.labs == s.labs[labId := lab.(isRepaired := true)]
                           && r.value.catalog == s.catalog.(equipment := s.catalog.equipment[lab.equipmentId := e.(isInRepair := false, stock := e.stock + 1)])
                           && r.value.rentals == s.rentals && r.value.contracts == s.contracts
                           && r.value.users == s.users
  {
    if labId !in s.labs then Failure(LabRecordNotFound)
    else
      var lab := s.labs[labId];
      if lab.equipmentId !in s.catalog.equipment then Failure(NullRelation)
      else
        var e := s.catalog.equipment[lab.equipmentId];
        Success(s.(labs := s.labs[labId := lab.(isRepaired := true)],
                   catalog := s.catalog.(equipment := s.catalog.equipment[lab.equipmentId := e.(isInRepair := false, stock := e.stock + 1)])))
  }

  /** Marking repaired is not idempotent: each call adds one more unit. */
  lemma MarkAsRepairedTwiceAddsTwo(s: Store, labId: Id)
    requires labId in s.labs && s.labs[labId].equipmentId in s.catalog.equipment
    ensures var eid := s.labs[labId].equipmentId;
            && MarkAsRepaired(s, labId).Success?
            && MarkAsRepaired(MarkAsRepaired(s, labId).value, labId).Success?
            && MarkAsRepaired(MarkAsRepaired(s, labId).value, labId).value.catalog.equipment[eid].stock
               == s.catalog.equipment[eid].stock + 2
  {
  }

  /** Reported equipment shows as in repair, and no rental can be requested on it
      until it is repaired. */
  lemma ReportedEquipmentNotRequestable(s: Store, userId: Id, rentalId: Id, notes: Option<string>, labId: Id,
                                        clientId: Id, req: Rentals.RentalRequest, newRental: Id, stamp: nat, draw: nat)
    requires labId !in s.labs
    requires ReportBrokenEquipment(s, userId, rentalId, notes, labId).Success?
    requires req.equipmentId == s.rentals[rentalId].equipmentId
    requires newRental !in ReportBrokenEquipment(s, userId, rentalId, notes, labId).value.0.rentals
    requires draw < 10000
    ensures var t := ReportBrokenEquipment(s, userId, rentalId, notes, labId).value.0;
            && StatusOf(t.catalog.equipment[req.equipmentId]) == InRepair
            && Rentals.CreateRequest(t, clientId, req, newRental, stamp, draw) == Failure(Rentals.UnderRepair)
  {
  }

  /** A report followed by the repair of its record leaves the equipment out of
      repair with one more unit than before, so available again when its stock
      was not negative. */
  lemma RepairAfterReportRestocks(s: Store, userId: Id, rentalId: Id, notes: Option<string>, labId: Id)
    requires labId !in s.labs
    requires ReportBrokenEquipment(s, userId, rentalId, notes, labId).Success?
    ensures var eid := s.rentals[rentalId].equipmentId;
            var t := ReportBrokenEquipment(s, userId, rentalId, notes, labId).value.0;
            && MarkAsRepaired(t, labId).Success?
            && MarkAsRepaired(t, labId).value.catalog.equipment[eid]
               == s.catalog.equipment[eid].(isInRepair := false, stock := s.catalog.equipment[eid].stock + 1)
            && (s.catalog.equipment[eid].stock >= 0 ==>
                  StatusOf(MarkAsRepaired(t, labId).value.catalog.equipment[eid]) == Available)
            && MarkAsRepaired(t, labId).value.labs[labId].isRepaired
  {
    var eid := s.rentals[rentalId].equipmentId;
    var t := ReportBrokenEquipment(s, userId, rentalId, notes, labId).value.0;
    StatusCases(MarkAsRepaired(t, labId).value.catalog.equipment[eid]);
  }

  /** Neither step of the repair workflow drives a stock below zero. */
  lemma LabsPreserveStockNonNegative(s: Store, userId: Id, rentalId: Id, notes: Option<string>, labId: Id, repairId: Id)
    requires StockNonNegative(s)
    requires labId !in s.labs
    ensures ReportBrokenEquipment(s, userId, rentalId, notes, labId).Success? ==>
              StockNonNegative(ReportBrokenEquipment(s, userId, rentalId, notes, labId).value.0)
    ensures MarkAsRepaired(s, repairId).Success? ==> StockNonNegative(MarkAsRepaired(s, repairId).value)
  {
  }

  // ---------------------------------------------------------------- records

  /** The writable columns of a lab record, each optional. */
  datatype LabPatch = LabPatch(equipmentId: Option<Id>, reportedBy: Option<Id>, notes: Option<string>, isRepaired: Option<bool>)

  /** `Object.assign(lab, dto)`: supplied fields overwrite, the others stay. */
  function Merge(lab: Lab, p: LabPatch): Lab
  {
    Lab(lab.id,
        p.equipmentId.GetOr(lab.equipmentId),
        p.reportedBy.GetOr(lab.reportedBy),
        if p.notes.Some? then p.notes else lab.notes,
        p.isRepaired.GetOr(lab.isRepaired))
  }

  /** `findOne` looked up by the record's own id. */
  function FindOne(labs: map<Id, Lab>, id: Id): (r: Result<Lab>)
    ensures r.Failure? <==> id !in labs
    ensures r.Failure? ==> r.error == LabNotFound(id)
    ensures r.Success? ==> r.value == labs[id]
  {
    if id in labs then Success(labs[id]) else Failure(LabNotFound(id))
  }

  /** `update` looked up by the record's own id: NotFound for a missing id, else
      the supplied fields replace the stored ones and the others stay. */
  function Update(labs: map<Id, Lab>, id: Id, p: LabPatch): (r: Result<(map<Id, Lab>, Lab)>)
    ensures r.Failure? <==> id !in labs
    ensures r.Failure? ==> r.error == LabNotFound(id)
    ensures r.Success? ==> r.value.0 == labs[id := r.value.1] && r.value.0.Keys == labs.Keys
    ensures r.Success? ==> && r.value.1.id == labs[id].id
                           && r.value.1.notes == (if p.notes.Some? then p.notes else labs[id].notes)
                           && r.value.1.isRepaired == (if p.isRepaired.Some? then p.isRepaired.value else labs[id].isRepaired)
                           && r.value.1.equipmentId == (if p.equipmentId.Some? then p.equipmentId.value else labs[id].equipmentId)
                           && r.value.1.reportedBy == (if p.reportedBy.Some? then p.reportedBy.value else labs[id].reportedBy)
  {
    if id !in labs then Failure(LabNotFound(id))
    else
      var lab := Merge(labs[id], p);
      Success((labs[id := lab], lab))
  }

  /** `remove` looked up by the record's own id: exactly that record goes. */
  function Remove(labs: map<Id, Lab>, id: Id): (r: Result<map<Id, Lab>>)
    ensures r.Failure? <==> id !in labs
    ensures r.Failure? ==> r.error == LabNotFound(id)
    ensures r.Success? ==> r.value.Keys == labs.Keys - {id}
    ensures r.Success? ==> forall k :: k in r.value ==> r.value[k] == labs[k]
  {
    if id !in labs then Failure(LabNotFound(id)) else Success(labs - {id})
  }

  /** After an update, the record is found with the merged fields and every other
      record is found as before. */
  lemma UpdatedLabIsFound(labs: map<Id, Lab>, id: Id, p: LabPatch, other: Id)
    requires id in labs && other != id
    ensures FindOne(Update(labs, id, p).value.0, id) == Success(Update(labs, id, p).value.1)
    ensures FindOne(Update(labs, id, p).value.0, other) == FindOne(labs, other)
  {
  }

  /** Removing a record and looking it up again finds nothing. */
  lemma RemovedLabNotFound(labs: map<Id, Lab>, id: Id)
    requires id in labs
    ensures FindOne(Remove(labs, id).value, id) == Failure(LabNotFound(id))
  {
  }

  // ---------------------------------------------------------------- numeric ids

  /** The JavaScript number the controller passes (`+id`): an integer, or NaN
      when the path segment is not a number. */
  datatype JsNumber = Int(i: int) | NaN

  /** `id.toString()`. */
  function NumberText(n: JsNumber): (s: string)
  {
    match n
    case NaN => "NaN"
    case Int(i) => if i < 0 then "-" + NatToString(-i) else NatToString(i)
  }

  /** The shape of the uuid the `labs` table generates for its primary key: 36
      characters, a hyphen after the first eight. */
  predicate UuidShaped(s: string)
  {
    |s| == 36 && s[8] == '-'
  }

  /** `findOne(id: number)` as written: the lookup key is the number's text. */
  function FindOneAsWritten(labs: map<Id, Lab>, n: JsNumber): (r: Result<Lab>)
    ensures r.Success? <==> NumberText(n) in labs
  {
    FindOne(labs, NumberText(n))
  }

  /** `update(id: number, dto)` as written. */
  function UpdateAsWritten(labs: map<Id, Lab>, n: JsNumber, p: LabPatch): (r: Result<(map<Id, Lab>, Lab)>)
    ensures r.Success? <==> NumberText(n) in labs
  {
    Update(labs, NumberText(n), p)
  }

  /** `remove(id: number)` as written. */
  function RemoveAsWritten(labs: map<Id, Lab>, n: JsNumber): (r: Result<map<Id, Lab>>)
    ensures r.Success? <==> NumberText(n) in labs
  {
    Remove(labs, NumberText(n))
  }

  /** No number's text has the shape of a uuid. */
  lemma NumberTextNotUuid(n: JsNumber)
    ensures !UuidShaped(NumberText(n))
  {
    if n.Int? {
      var digits := NatToString(if n.i < 0 then -n.i else n.i);
      if n.i < 0 && |digits| > 7 {
        assert NumberText(n)[8] == digits[7];
      } else if |digits| > 8 {
        assert NumberText(n)[8] == digits[8];
      }
    }
  }

  /** With uuid keys, the numeric lookups of `findOne`, `update` and `remove` never
      reach a record: every lab is unreachable through them. */
  lemma NumericLookupNeverFinds(labs: map<Id, Lab>, n: JsNumber, p: LabPatch)
    requires forall id :: id in labs ==> UuidShaped(id)
    ensures FindOneAsWritten(labs, n) == Failure(LabNotFound(NumberText(n)))
    ensures UpdateAsWritten(labs, n, p) == Failure(LabNotFound(NumberText(n)))
    ensures RemoveAsWritten(labs, n) == Failure(LabNotFound(NumberText(n)))
  {
    NumberTextNotUuid(n);
  }
}
