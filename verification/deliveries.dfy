/** The delivery tracker (`DeliveriesService`, src/deliveries/deliveries.service.ts):
    CRUD over handoff/return records that reference a rental, a technician and a
    client by id. */
module Deliveries {
  import opened Base

  datatype DeliveryStatus = Pending | Accepted | Rejected | InReview

  datatype Delivery = Delivery(
    id: Id,
    rentalId: Id,
    technicianId: Id,
    clientId: Id,
    actDocumentUrl: Option<string>,
    clientSignatureUrl: Option<string>,
    visualObservations: Option<string>,
    technicalObservations: Option<string>,
    status: DeliveryStatus)

  /** `CreateDeliveryDto`. Each relation is the `id` of its nested object, None
      when the object or its id is missing. */
  datatype NewDelivery = NewDelivery(
    rental: Option<Id>,
    technician: Option<Id>,
    client: Option<Id>,
    actDocumentUrl: Option<string>,
    clientSignatureUrl: Option<string>,
    visualObservations: Option<string>,
    technicalObservations: Option<string>)

  /** `UpdateDeliveryDto`: every field of the create DTO plus `status`, all optional. */
  datatype DeliveryPatch = DeliveryPatch(
    rental: Option<Id>,
    technician: Option<Id>,
    client: Option<Id>,
    actDocumentUrl: Option<string>,
    clientSignatureUrl: Option<string>,
    visualObservations: Option<string>,
    technicalObservations: Option<string>,
    status: Option<DeliveryStatus>)

  type DeliveryTable = map<Id, Delivery>

  const DeliveryNotFound := Error(NotFound, "Delivery not found")

  function Missing(field: string): Error
  {
    Error(BadRequest, "El campo " + field + " es requerido")
  }

  /** The first relation id that is missing or empty, in the order rental,
      technician, client; None when all three are present. */
  function FirstMissingRelation(dto: NewDelivery): (m: Option<string>)
    ensures m == Some("rental.id") <==> !Truthy(dto.rental)
    ensures m == Some("technician.id") <==> Truthy(dto.rental) && !Truthy(dto.technician)
    ensures m == Some("client.id") <==> Truthy(dto.rental) && Truthy(dto.technician) && !Truthy(dto.client)
    ensures m.None? <==> Truthy(dto.rental) && Truthy(dto.technician) && Truthy(dto.client)
  {
    if !Truthy(dto.rental) then Some("rental.id")
    else if !Truthy(dto.technician) then Some("technician.id")
    else if !Truthy(dto.client) then Some("client.id")
    else None
  }

  /** `create`: validates the three relation ids in order and, when all are
      present, stores a pending delivery carrying only those ids and the four
      optional texts. On failure nothing is stored. */
  function Create(t: DeliveryTable, dto: NewDelivery, newId: Id): (r: Result<(DeliveryTable, Delivery)>)
    requires newId !in t
    ensures r.Failure? <==> !(Truthy(dto.rental) && Truthy(dto.technician) && Truthy(dto.client))
    ensures r.Failure? ==> r.error.kind == BadRequest
    ensures !Truthy(dto.rental) ==> r == Failure(Missing("rental.id"))
    ensures Truthy(dto.rental) && !Truthy(dto.technician) ==> r == Failure(Missing("technician.id"))
    ensures Truthy(dto.rental) && Truthy(dto.technician) && !Truthy(dto.client) ==> r == Failure(Missing("client.id"))
    ensures r.Success? ==> r.value.0 == t[newId := r.value.1] && |r.value.0| == |t| + 1
    ensures r.Success? ==> r.value.1 == Delivery(newId, dto.rental.value, dto.technician.value, dto.client.value,
                                                 dto.actDocumentUrl, dto.clientSignatureUrl,
                                                 dto.visualObservations, dto.technicalObservations, Pending)
  {
    match FirstMissingRelation(dto)
    case Some(field) => Failure(Missing(field))
    case None =>
      var d := Delivery(newId, dto.rental.value, dto.technician.value, dto.client.value,
                        dto.actDocumentUrl, dto.clientSignatureUrl,
                        dto.visualObservations, dto.technicalObservations, Pending);
      Success((t[newId := d], d))
  }

  function FindOne(t: DeliveryTable, id: Id): (r: Result<Delivery>)
    ensures r.Failure? <==> id !in t
    ensures r.Failure? ==> r.error == DeliveryNotFound
    ensures r.Success? ==> r.value == t[id]
  {
    if id in t then Success(t[id]) else Failure(DeliveryNotFound)
  }

  /** `Object.assign(delivery, dto)`: supplied fields overwrite, others stay. */
  function Merge(d: Delivery, p: DeliveryPatch): Delivery
  {
    Delivery(d.id,
             p.rental.GetOr(d.rentalId),
             p.technician.GetOr(d.technicianId),
             p.client.GetOr(d.clientId),
             if p.actDocumentUrl.Some? then p.actDocumentUrl else d.actDocumentUrl,
             if p.clientSignatureUrl.Some? then p.clientSignatureUrl else d.clientSignatureUrl,
             if p.visualObservations.Some? then p.visualObservations else d.visualObservations,
             if p.technicalObservations.Some? then p.technicalObservations else d.technicalObservations,
             p.status.GetOr(d.status))
  }

  /** A patch that supplies nothing. */
  predicate EmptyPatch(p: DeliveryPatch)
  {
    p == DeliveryPatch(None, None, None, None, None, None, None, None)
  }

  /** `update`: NotFound for a missing id, else the merged record replaces the old one. */
  function Update(t: DeliveryTable, id: Id, p: DeliveryPatch): (r: Result<(DeliveryTable, Delivery)>)
    ensures r.Failure? <==> id !in t
    ensures r.Failure? ==> r.error == DeliveryNotFound
    ensures r.Success? ==> r.value.0 == t[id := r.value.1] && r.value.0.Keys == t.Keys
    ensures r.Success? ==> r.value.1.id == t[id].id
    ensures r.Success? ==> r.value.1.status == (if p.status.Some? then p.status.value else t[id].status)
    ensures r.Success? ==> r.value.1.rentalId == (if p.rental.Some? then p.rental.value else t[id].rentalId)
    ensures r.Success? ==> r.value.1.technicianId == (if p.technician.Some? then p.technician.value else t[id].technicianId)
    ensures r.Success? ==> r.value.1.clientId == (if p.client.Some? then p.client.value else t[id].clientId)
    ensures r.Success? ==> && r.value.1.actDocumentUrl == (if p.actDocumentUrl.Some? then p.actDocumentUrl else t[id].actDocumentUrl)
                           && r.value.1.clientSignatureUrl == (if p.clientSignatureUrl.Some? then p.clientSignatureUrl else t[id].clientSignatureUrl)
                           && r.value.1.visualObservations == (if p.visualObservations.Some? then p.visualObservations else t[id].visualObservations)
                           && r.value.1.technicalObservations == (if p.technicalObservations.Some? then p.technicalObservations else t[id].technicalObservations)
    ensures r.Success? && EmptyPatch(p) ==> r.value.0 == t
  {
    if id !in t then Failure(DeliveryNotFound)
    else
      var d := Merge(t[id], p);
      Success((t[id := d], d))
  }

  /** `remove`: NotFound for a missing id, else exactly that record goes. */
  function Remove(t: DeliveryTable, id: Id): (r: Result<DeliveryTable>)
    ensures r.Failure? <==> id !in t
    ensures r.Failure? ==> r.error == DeliveryNotFound
    ensures r.Success? ==> r.value.Keys == t.Keys - {id}
    ensures r.Success? ==> forall k :: k in r.value ==> r.value[k] == t[k]
  {
    if id !in t then Failure(DeliveryNotFound) else Success(t - {id})
  }

  /** Removing a freshly created delivery restores the table. */
  lemma RemoveUndoesCreate(t: DeliveryTable, dto: NewDelivery, newId: Id)
    requires newId !in t
    requires Create(t, dto, newId).Success?
    ensures Remove(Create(t, dto, newId).value.0, newId) == Success(t)
  {
    assert Create(t, dto, newId).value.0 - {newId} == t;
  }

  /** Merging twice with the same patch is the same as merging once. */
  lemma UpdateIdempotent(t: DeliveryTable, id: Id, p: DeliveryPatch)
    requires id in t
    ensures Update(Update(t, id, p).value.0, id, p) == Update(t, id, p)
  {
    var once := Merge(t[id], p);
    assert Merge(once, p) == once;
    assert t[id := once][id := once] == t[id := once];
  }

  /** A created delivery is found under its id, exactly as created and pending. */
  lemma CreatedDeliveryIsFound(t: DeliveryTable, dto: NewDelivery, newId: Id)
    requires newId !in t
    requires Create(t, dto, newId).Success?
    ensures FindOne(Create(t, dto, newId).value.0, newId) == Success(Create(t, dto, newId).value.1)
    ensures FindOne(Create(t, dto, newId).value.0, newId).value.status == Pending
  {
  }
}
