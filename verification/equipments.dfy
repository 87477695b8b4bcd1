/** The equipment catalog (`EquipmentsService`, src/equipments/equipments.service.ts):
    equipment rows, the three variant spec tables they point at, the derived
    availability status, and the stock update the rental and lab workflows use.

    The service throws plain `Error`s, so its failures are of kind Internal. */
module Equipments {
  import opened Base

  datatype ComputerSpecs = ComputerSpecs(processor: string, ram: string, storage: string, os: string)
  datatype PrinterSpecs = PrinterSpecs(printTechnology: string, resolution: string, connectivity: string)
  datatype PhoneSpecs = PhoneSpecs(screenSize: string, battery: string, camera: string, os: string)

  /** The `specifications` object that `update` assigns over the attached spec
      row. Any spec column may be supplied; the columns of another variant are
      ignored when the row is saved. */
  datatype SpecPatch = SpecPatch(
    processor: Option<string>,
    ram: Option<string>,
    storage: Option<string>,
    os: Option<string>,
    printTechnology: Option<string>,
    resolution: Option<string>,
    connectivity: Option<string>,
    screenSize: Option<string>,
    battery: Option<string>,
    camera: Option<string>)

  /** An equipment row. `kind` is the `type` column, stored as the client sent it;
      the three spec fields are the foreign keys of the one-to-one spec relations. */
  datatype Equipment = Equipment(
    id: Id,
    name: string,
    kind: string,
    brand: string,
    model: string,
    description: string,
    price: int,
    stock: int,
    warrantyPeriod: string,
    releaseDate: int,
    image: Option<string>,
    isInRepair: bool,
    computerSpecs: Option<Id>,
    printerSpecs: Option<Id>,
    phoneSpecs: Option<Id>)

  /** The four tables the service writes, keyed by id. */
  datatype Catalog = Catalog(
    equipment: map<Id, Equipment>,
    computerSpecs: map<Id, ComputerSpecs>,
    printerSpecs: map<Id, PrinterSpecs>,
    phoneSpecs: map<Id, PhoneSpecs>)

  /** The spec variants the service dispatches on. */
  datatype Kind = Computer | Printer | Phone

  /** The `switch` over a type string: only the exact lower-case names match. */
  function KindOf(t: string): (k: Option<Kind>)
    ensures k == Some(Computer) <==> t == "computer"
    ensures k == Some(Printer) <==> t == "printer"
    ensures k == Some(Phone) <==> t == "phone"
  {
    if t == "computer" then Some(Computer)
    else if t == "printer" then Some(Printer)
    else if t == "phone" then Some(Phone)
    else None
  }

  function LowerChar(c: char): char
  {
    if 'A' <= c <= 'Z' then (c as int + 32) as char else c
  }

  /** `toLowerCase` on the ASCII letters. */
  function Lower(s: string): (r: string)
    ensures |r| == |s|
    ensures forall i :: 0 <= i < |s| ==> r[i] == LowerChar(s[i])
  {
    if |s| == 0 then "" else [LowerChar(s[0])] + Lower(s[1..])
  }

  const NotFoundEn := Error(Internal, "Equipment not found")
  const NotFoundEs := Error(Internal, "Equipo no encontrado")
  const Unsupported := Error(Internal, "Tipo de equipo no soportado")

  // ---------------------------------------------------------------- status

  datatype EquipmentStatus = InRepair | OutOfStock | Available

  /** The `status` of the response projection. */
  function StatusOf(e: Equipment): EquipmentStatus
  {
    if e.isInRepair then InRepair
    else if e.stock < 1 then OutOfStock
    else Available
  }

  /** The projection is exclusive and total, and repair takes precedence over
      stock: each status holds under exactly its own condition. */
  lemma StatusCases(e: Equipment)
    ensures StatusOf(e) == InRepair <==> e.isInRepair
    ensures StatusOf(e) == OutOfStock <==> !e.isInRepair && e.stock < 1
    ensures StatusOf(e) == Available <==> !e.isInRepair && e.stock >= 1
  {
  }

  /** The response DTO: the row's fields plus its status. */
  datatype EquipmentResponse = EquipmentResponse(equipment: Equipment, status: EquipmentStatus)

  function ToResponse(e: Equipment): (r: EquipmentResponse)
    ensures r.equipment == e
    ensures r.status == InRepair <==> e.isInRepair
    ensures r.status == OutOfStock <==> !e.isInRepair && e.stock < 1
    ensures r.status == Available <==> !e.isInRepair && e.stock >= 1
  {
    EquipmentResponse(e, StatusOf(e))
  }

  /** `findAll`: every row, projected. */
  function FindAll(c: Catalog): (r: map<Id, EquipmentResponse>)
    ensures r.Keys == c.equipment.Keys
    ensures forall id :: id in r ==> r[id] == ToResponse(c.equipment[id])
  {
    map id | id in c.equipment :: ToResponse(c.equipment[id])
  }

  // ---------------------------------------------------------------- read

  /** `findOne`: the stored row, or "Equipment not found". */
  function FindOne(c: Catalog, id: Id): (r: Result<Equipment>)
    ensures r.Failure? <==> id !in c.equipment
    ensures r.Failure? ==> r.error == NotFoundEn
    ensures r.Success? ==> r.value == c.equipment[id]
  {
    if id in c.equipment then Success(c.equipment[id]) else Failure(NotFoundEn)
  }

  // ---------------------------------------------------------------- spec invariants

  /** At most one of the three spec relations is set. */
  predicate AtMostOneSpec(e: Equipment)
  {
    && !(e.computerSpecs.Some? && e.printerSpecs.Some?)
    && !(e.computerSpecs.Some? && e.phoneSpecs.Some?)
    && !(e.printerSpecs.Some? && e.phoneSpecs.Some?)
  }

  /** The attached spec, if any, is the variant the lower-cased type names. */
  predicate SpecFollowsKind(e: Equipment)
  {
    && (e.computerSpecs.Some? ==> KindOf(Lower(e.kind)) == Some(Computer))
    && (e.printerSpecs.Some? ==> KindOf(Lower(e.kind)) == Some(Printer))
    && (e.phoneSpecs.Some? ==> KindOf(Lower(e.kind)) == Some(Phone))
  }

  // ---------------------------------------------------------------- create

  /** `CreateEquipmentDto`, with `releaseDate` already read as a timestamp. */
  datatype NewEquipment = NewEquipment(
    name: string,
    kind: string,
    brand: string,
    model: string,
    description: string,
    price: int,
    stock: int,
    warrantyPeriod: string,
    releaseDate: int,
    image: Option<string>,
    computerSpecs: Option<ComputerSpecs>,
    printerSpecs: Option<PrinterSpecs>,
    phoneSpecs: Option<PhoneSpecs>)

  /** `create`: dispatches on the lower-cased type. An unsupported type fails and
      saves nothing; otherwise the spec of the named variant, when supplied, is
      saved under `specId` and attached, and the row is saved under `newId` with
      its type as sent. Specs of other variants in the DTO are dropped. */
  function Create(c: Catalog, dto: NewEquipment, newId: Id, specId: Id): (r: Result<(Catalog, Equipment)>)
    requires newId !in c.equipment
    requires specId !in c.computerSpecs && specId !in c.printerSpecs && specId !in c.phoneSpecs
    ensures r.Failure? <==> KindOf(Lower(dto.kind)).None?
    ensures r.Failure? ==> r.error == Unsupported
    ensures r.Success? ==> r.value.0.equipment == c.equipment[newId := r.value.1]
    ensures r.Success? ==> r.value.1 == Equipment(newId, dto.name, dto.kind, dto.brand, dto.model, dto.description,
                                                  dto.price, dto.stock, dto.warrantyPeriod, dto.releaseDate, dto.image,
                                                  false, r.value.1.computerSpecs, r.value.1.printerSpecs,
                                                  r.value.1.phoneSpecs)
    ensures r.Success? ==> AtMostOneSpec(r.value.1) && SpecFollowsKind(r.value.1)
    ensures r.Success? ==> (r.value.1.computerSpecs.Some? <==> dto.computerSpecs.Some? && KindOf(Lower(dto.kind)) == Some(Computer))
    ensures r.Success? ==> (r.value.1.printerSpecs.Some? <==> dto.printerSpecs.Some? && KindOf(Lower(dto.kind)) == Some(Printer))
    ensures r.Success? ==> (r.value.1.phoneSpecs.Some? <==> dto.phoneSpecs.Some? && KindOf(Lower(dto.kind)) == Some(Phone))
    ensures r.Success? ==> r.value.0.computerSpecs == (if r.value.1.computerSpecs.Some? then c.computerSpecs[specId := dto.computerSpecs.value] else c.computerSpecs)
    ensures r.Success? ==> r.value.0.printerSpecs == (if r.value.1.printerSpecs.Some? then c.printerSpecs[specId := dto.printerSpecs.value] else c.printerSpecs)
    ensures r.Success? ==> r.value.0.phoneSpecs == (if r.value.1.phoneSpecs.Some? then c.phoneSpecs[specId := dto.phoneSpecs.value] else c.phoneSpecs)
  {
    var base := Equipment(newId, dto.name, dto.kind, dto.brand, dto.model, dto.description, dto.price,
                          dto.stock, dto.warrantyPeriod, dto.releaseDate, dto.image, false, None, None, None);
    match KindOf(Lower(dto.kind))
    case None => Failure(Unsupported)
    case Some(Computer) =>
      if dto.computerSpecs.Some? then
        var e := base.(computerSpecs := Some(specId));
        Success((c.(equipment := c.equipment[newId := e],
                    computerSpecs := c.computerSpecs[specId := dto.computerSpecs.value]), e))
      else Success((c.(equipment := c.equipment[newId := base]), base))
    case Some(Printer) =>
      if dto.printerSpecs.Some? then
        var e := base.(printerSpecs := Some(specId));
        Success((c.(equipment := c.equipment[newId := e],
                    printerSpecs := c.printerSpecs[specId := dto.printerSpecs.value]), e))
      else Success((c.(equipment := c.equipment[newId := base]), base))
    case Some(Phone) =>
      if dto.phoneSpecs.Some? then
        var e := base.(phoneSpecs := Some(specId));
        Success((c.(equipment := c.equipment[newId := e],
                    phoneSpecs := c.phoneSpecs[specId := dto.phoneSpecs.value]), e))
      else Success((c.(equipment := c.equipment[newId := base]), base))
  }

  // ---------------------------------------------------------------- update

  /** The scalar columns an `update` body may carry, plus `specifications`. */
  datatype EquipmentPatch = EquipmentPatch(
    name: Option<string>,
    kind: Option<string>,
    brand: Option<string>,
    model: Option<string>,
    description: Option<string>,
    price: Option<int>,
    stock: Option<int>,
    warrantyPeriod: Option<string>,
    releaseDate: Option<int>,
    image: Option<string>,
    isInRepair: Option<bool>,
    specifications: Option<SpecPatch>)

  /** `Object.assign(equipment, data)` on the row's own columns. */
  function Patch(e: Equipment, p: EquipmentPatch): (e': Equipment)
    ensures e'.id == e.id && e'.computerSpecs == e.computerSpecs
    ensures e'.printerSpecs == e.printerSpecs && e'.phoneSpecs == e.phoneSpecs
    ensures e'.name == (if p.name.Some? then p.name.value else e.name)
    ensures e'.kind == (if p.kind.Some? then p.kind.value else e.kind)
    ensures e'.brand == (if p.brand.Some? then p.brand.value else e.brand)
    ensures e'.model == (if p.model.Some? then p.model.value else e.model)
    ensures e'.description == (if p.description.Some? then p.description.value else e.description)
    ensures e'.price == (if p.price.Some? then p.price.value else e.price)
    ensures e'.stock == (if p.stock.Some? then p.stock.value else e.stock)
    ensures e'.warrantyPeriod == (if p.warrantyPeriod.Some? then p.warrantyPeriod.value else e.warrantyPeriod)
    ensures e'.releaseDate == (if p.releaseDate.Some? then p.releaseDate.value else e.releaseDate)
    ensures e'.image == (if p.image.Some? then p.image else e.image)
    ensures e'.isInRepair == (if p.isInRepair.Some? then p.isInRepair.value else e.isInRepair)
  {
    e.(name := p.name.GetOr(e.name),
       kind := p.kind.GetOr(e.kind),
       brand := p.brand.GetOr(e.brand),
       model := p.model.GetOr(e.model),
       description := p.description.GetOr(e.description),
       price := p.price.GetOr(e.price),
       stock := p.stock.GetOr(e.stock),
       warrantyPeriod := p.warrantyPeriod.GetOr(e.warrantyPeriod),
       releaseDate := p.releaseDate.GetOr(e.releaseDate),
       image := if p.image.Some? then p.image else e.image,
       isInRepair := p.isInRepair.GetOr(e.isInRepair))
  }

  function PatchComputer(s: ComputerSpecs, p: SpecPatch): ComputerSpecs
  {
    ComputerSpecs(p.processor.GetOr(s.processor), p.ram.GetOr(s.ram), p.storage.GetOr(s.storage), p.os.GetOr(s.os))
  }

  function PatchPrinter(s: PrinterSpecs, p: SpecPatch): PrinterSpecs
  {
    PrinterSpecs(p.printTechnology.GetOr(s.printTechnology), p.resolution.GetOr(s.resolution),
                 p.connectivity.GetOr(s.connectivity))
  }

  function PatchPhone(s: PhoneSpecs, p: SpecPatch): PhoneSpecs
  {
    PhoneSpecs(p.screenSize.GetOr(s.screenSize), p.battery.GetOr(s.battery), p.camera.GetOr(s.camera), p.os.GetOr(s.os))
  }

  /** The `switch` of `update`: assign `specifications` over the attached spec row
      of variant `k`, when that relation is set and loads; leave the tables
      alone otherwise. */
  function MergeSpec(c: Catalog, e: Equipment, k: Option<Kind>, p: Option<SpecPatch>): (c': Catalog)
    ensures c'.equipment == c.equipment
    ensures c'.computerSpecs.Keys == c.computerSpecs.Keys
    ensures c'.printerSpecs.Keys == c.printerSpecs.Keys
    ensures c'.phoneSpecs.Keys == c.phoneSpecs.Keys
  {
    if p.None? then c
    else match k
      case Some(Computer) =>
        if e.computerSpecs.Some? && e.computerSpecs.value in c.computerSpecs then
          var sid := e.computerSpecs.value;
          c.(computerSpecs := c.computerSpecs[sid := PatchComputer(c.computerSpecs[sid], p.value)])
        else c
      case Some(Printer) =>
        if e.printerSpecs.Some? && e.printerSpecs.value in c.printerSpecs then
          var sid := e.printerSpecs.value;
          c.(printerSpecs := c.printerSpecs[sid := PatchPrinter(c.printerSpecs[sid], p.value)])
        else c
      case Some(Phone) =>
        if e.phoneSpecs.Some? && e.phoneSpecs.value in c.phoneSpecs then
          var sid := e.phoneSpecs.value;
          c.(phoneSpecs := c.phoneSpecs[sid := PatchPhone(c.phoneSpecs[sid], p.value)])
        else c
      case None => c
  }

  /** `update` as written: the spec dispatch compares the stored type (after the
      patch) with the lower-case names exactly. */
  function UpdateAsWritten(c: Catalog, id: Id, p: EquipmentPatch): (r: Result<(Catalog, Equipment)>)
    ensures r.Failure? <==> id !in c.equipment
    ensures r.Failure? ==> r.error == NotFoundEs
    ensures r.Success? ==> r.value.0.equipment == c.equipment[id := r.value.1]
    ensures r.Success? ==> r.value.1 == Patch(c.equipment[id], p)
    ensures (&& r.Success? && p.specifications.Some? && KindOf(r.value.1.kind) == Some(Computer)
             && c.equipment[id].computerSpecs.Some? && c.equipment[id].computerSpecs.value in c.computerSpecs) ==>
              var sid := c.equipment[id].computerSpecs.value;
              r.value.0.computerSpecs == c.computerSpecs[sid := PatchComputer(c.computerSpecs[sid], p.specifications.value)]
    ensures (&& r.Success? && p.specifications.Some? && KindOf(r.value.1.kind) == Some(Printer)
             && c.equipment[id].printerSpecs.Some? && c.equipment[id].printerSpecs.value in c.printerSpecs) ==>
              var sid := c.equipment[id].printerSpecs.value;
              r.value.0.printerSpecs == c.printerSpecs[sid := PatchPrinter(c.printerSpecs[sid], p.specifications.value)]
    ensures (&& r.Success? && p.specifications.Some? && KindOf(r.value.1.kind) == Some(Phone)
             && c.equipment[id].phoneSpecs.Some? && c.equipment[id].phoneSpecs.value in c.phoneSpecs) ==>
              var sid := c.equipment[id].phoneSpecs.value;
              r.value.0.phoneSpecs == c.phoneSpecs[sid := PatchPhone(c.phoneSpecs[sid], p.specifications.value)]
    ensures r.Success? && (c.equipment[id].computerSpecs.None? || c.equipment[id].computerSpecs.value !in c.computerSpecs) ==>
              r.value.0.computerSpecs == c.computerSpecs
    ensures r.Success? && (c.equipment[id].printerSpecs.None? || c.equipment[id].printerSpecs.value !in c.printerSpecs) ==>
              r.value.0.printerSpecs == c.printerSpecs
    ensures r.Success? && (c.equipment[id].phoneSpecs.None? || c.equipment[id].phoneSpecs.value !in c.phoneSpecs) ==>
              r.value.0.phoneSpecs == c.phoneSpecs
    ensures r.Success? && KindOf(r.value.1.kind) != Some(Computer) ==> r.value.0.computerSpecs == c.computerSpecs
    ensures r.Success? && KindOf(r.value.1.kind) != Some(Printer) ==> r.value.0.printerSpecs == c.printerSpecs
    ensures r.Success? && KindOf(r.value.1.kind) != Some(Phone) ==> r.value.0.phoneSpecs == c.phoneSpecs
    ensures r.Success? && p.specifications.None? ==> r.value.0 == c.(equipment := c.equipment[id := r.value.1])
    ensures r.Success? && KindOf(r.value.1.kind).None? ==> r.value.0 == c.(equipment := c.equipment[id := r.value.1])
  {
    if id !in c.equipment then Failure(NotFoundEs)
    else
      var e := Patch(c.equipment[id], p);
      var c' := MergeSpec(c, e, KindOf(e.kind), p.specifications);
      Success((c'.(equipment := c'.equipment[id := e]), e))
  }

  /** `update`, dispatching on the lower-cased type as `create` does: fails for a
      missing id; otherwise merges the supplied columns into the row and
      `specifications` into the attached spec of the row's variant only. */
  function Update(c: Catalog, id: Id, p: EquipmentPatch): (r: Result<(Catalog, Equipment)>)
    ensures r.Failure? <==> id !in c.equipment
    ensures r.Failure? ==> r.error == NotFoundEs
    ensures r.Success? ==> r.value.0.equipment == c.equipment[id := r.value.1]
    ensures r.Success? ==> r.value.1 == Patch(c.equipment[id], p)
    ensures (&& r.Success? && p.specifications.Some? && KindOf(Lower(r.value.1.kind)) == Some(Computer)
             && c.equipment[id].computerSpecs.Some? && c.equipment[id].computerSpecs.value in c.computerSpecs) ==>
              var sid := c.equipment[id].computerSpecs.value;
              r.value.0.computerSpecs == c.computerSpecs[sid := PatchComputer(c.computerSpecs[sid], p.specifications.value)]
    ensures (&& r.Success? && p.specifications.Some? && KindOf(Lower(r.value.1.kind)) == Some(Printer)
             && c.equipment[id].printerSpecs.Some? && c.equipment[id].printerSpecs.value in c.printerSpecs) ==>
              var sid := c.equipment[id].printerSpecs.value;
              r.value.0.printerSpecs == c.printerSpecs[sid := PatchPrinter(c.printerSpecs[sid], p.specifications.value)]
    ensures (&& r.Success? && p.specifications.Some? && KindOf(Lower(r.value.1.kind)) == Some(Phone)
             && c.equipment[id].phoneSpecs.Some? && c.equipment[id].phoneSpecs.value in c.phoneSpecs) ==>
              var sid := c.equipment[id].phoneSpecs.value;
              r.value.0.phoneSpecs == c.phoneSpecs[sid := PatchPhone(c.phoneSpecs[sid], p.specifications.value)]
    ensures r.Success? && (c.equipment[id].computerSpecs.None? || c.equipment[id].computerSpecs.value !in c.computerSpecs) ==>
              r.value.0.computerSpecs == c.computerSpecs
    ensures r.Success? && (c.equipment[id].printerSpecs.None? || c.equipment[id].printerSpecs.value !in c.printerSpecs) ==>
              r.value.0.printerSpecs == c.printerSpecs
    ensures r.Success? && (c.equipment[id].phoneSpecs.None? || c.equipment[id].phoneSpecs.value !in c.phoneSpecs) ==>
              r.value.0.phoneSpecs == c.phoneSpecs
    ensures r.Success? && KindOf(Lower(r.value.1.kind)) != Some(Computer) ==> r.value.0.computerSpecs == c.computerSpecs
    ensures r.Success? && KindOf(Lower(r.value.1.kind)) != Some(Printer) ==> r.value.0.printerSpecs == c.printerSpecs
    ensures r.Success? && KindOf(Lower(r.value.1.kind)) != Some(Phone) ==> r.value.0.phoneSpecs == c.phoneSpecs
    ensures r.Success? && p.specifications.None? ==> r.value.0 == c.(equipment := c.equipment[id := r.value.1])
  {
    if id !in c.equipment then Failure(NotFoundEs)
    else
      var e := Patch(c.equipment[id], p);
      var c' := MergeSpec(c, e, KindOf(Lower(e.kind)), p.specifications);
      Success((c'.(equipment := c'.equipment[id := e]), e))
  }

  // ---------------------------------------------------------------- remove

  /** The `switch` of `remove`: delete the attached spec row of variant `k`, when
      that relation is set and loads. */
  function DropSpec(c: Catalog, e: Equipment, k: Option<Kind>): (c': Catalog)
    ensures c'.equipment == c.equipment
    ensures c'.computerSpecs.Keys <= c.computerSpecs.Keys
    ensures c'.printerSpecs.Keys <= c.printerSpecs.Keys
    ensures c'.phoneSpecs.Keys <= c.phoneSpecs.Keys
  {
    match k
    case Some(Computer) =>
      if e.computerSpecs.Some? && e.computerSpecs.value in c.computerSpecs
      then c.(computerSpecs := c.computerSpecs - {e.computerSpecs.value}) else c
    case Some(Printer) =>
      if e.printerSpecs.Some? && e.printerSpecs.value in c.printerSpecs
      then c.(printerSpecs := c.printerSpecs - {e.printerSpecs.value}) else c
    case Some(Phone) =>
      if e.phoneSpecs.Some? && e.phoneSpecs.value in c.phoneSpecs
      then c.(phoneSpecs := c.phoneSpecs - {e.phoneSpecs.value}) else c
    case None => c
  }

  /** The spec ids of `e` that a removal dispatching to variant `k` deletes: the
      link of that variant alone, when set. */
  function LinkedOf(e: Equipment, k: Option<Kind>): (ids: (set<Id>, set<Id>, set<Id>))
    ensures |ids.0| + |ids.1| + |ids.2| <= 1
  {
    match k
    case Some(Computer) => (if e.computerSpecs.Some? then {e.computerSpecs.value} else {}, {}, {})
    case Some(Printer) => ({}, if e.printerSpecs.Some? then {e.printerSpecs.value} else {}, {})
    case Some(Phone) => ({}, {}, if e.phoneSpecs.Some? then {e.phoneSpecs.value} else {})
    case None => ({}, {}, {})
  }

  /** The catalog after removing row `id` and the spec row of variant `k` it links:
      every other row of every table stays. */
  function Dropped(c: Catalog, id: Id, k: Option<Kind>): Catalog
    requires id in c.equipment
  {
    var ids := LinkedOf(c.equipment[id], k);
    Catalog(c.equipment - {id}, c.computerSpecs - ids.0, c.printerSpecs - ids.1, c.phoneSpecs - ids.2)
  }

  /** `remove` as written: the spec dispatch compares the stored type exactly. */
  function RemoveAsWritten(c: Catalog, id: Id): (r: Result<Catalog>)
    ensures r.Failure? <==> id !in c.equipment
    ensures r.Failure? ==> r.error == NotFoundEs
    ensures r.Success? ==> r.value.equipment == c.equipment - {id}
    ensures r.Success? && KindOf(c.equipment[id].kind).None? ==>
              r.value == c.(equipment := c.equipment - {id})
    ensures r.Success? ==> r.value == Dropped(c, id, KindOf(c.equipment[id].kind))
  {
    if id !in c.equipment then Failure(NotFoundEs)
    else
      var e := c.equipment[id];
      var c' := DropSpec(c, e, KindOf(e.kind));
      Success(c'.(equipment := c'.equipment - {id}))
  }

  /** `remove`, dispatching on the lower-cased type as `create` does: fails for a
      missing id; otherwise deletes the row and, when the row's spec follows its
      type, every spec row it points at. */
  function Remove(c: Catalog, id: Id): (r: Result<Catalog>)
    ensures r.Failure? <==> id !in c.equipment
    ensures r.Failure? ==> r.error == NotFoundEs
    ensures r.Success? ==> r.value.equipment == c.equipment - {id}
    ensures r.Success? ==> r.value == Dropped(c, id, KindOf(Lower(c.equipment[id].kind)))
    ensures r.Success? && AtMostOneSpec(c.equipment[id]) && SpecFollowsKind(c.equipment[id]) ==>
              && (c.equipment[id].computerSpecs.Some? ==> c.equipment[id].computerSpecs.value !in r.value.computerSpecs)
              && (c.equipment[id].printerSpecs.Some? ==> c.equipment[id].printerSpecs.value !in r.value.printerSpecs)
              && (c.equipment[id].phoneSpecs.Some? ==> c.equipment[id].phoneSpecs.value !in r.value.phoneSpecs)
  {
    if id !in c.equipment then Failure(NotFoundEs)
    else
      var e := c.equipment[id];
      var c' := DropSpec(c, e, KindOf(Lower(e.kind)));
      Success(c'.(equipment := c'.equipment - {id}))
  }

  // ---------------------------------------------------------------- stock

  /** `updateStock`: sets the stock to exactly `n`, nothing else. */
  function UpdateStock(c: Catalog, id: Id, n: int): (r: Result<(Catalog, Equipment)>)
    ensures r.Failure? <==> id !in c.equipment
    ensures r.Failure? ==> r.error == NotFoundEn
    ensures r.Success? ==> r.value.1 == c.equipment[id].(stock := n)
    ensures r.Success? ==> r.value.0 == c.(equipment := c.equipment[id := r.value.1])
  {
    if id !in c.equipment then Failure(NotFoundEn)
    else
      var e := c.equipment[id].(stock := n);
      Success((c.(equipment := c.equipment[id := e]), e))
  }

  /** Two stock updates in a row: the second one wins. */
  lemma UpdateStockLastWins(c: Catalog, id: Id, m: int, n: int)
    requires id in c.equipment
    ensures UpdateStock(UpdateStock(c, id, m).value.0, id, n) == UpdateStock(c, id, n)
  {
    var e := c.equipment[id];
    assert c.equipment[id := e.(stock := m)][id := e.(stock := n)] == c.equipment[id := e.(stock := n)];
  }

  /** Writing back the current stock changes nothing. */
  lemma UpdateStockSameIsIdentity(c: Catalog, id: Id)
    requires id in c.equipment
    ensures UpdateStock(c, id, c.equipment[id].stock).value.0 == c
  {
    assert c.equipment[id := c.equipment[id]] == c.equipment;
  }

  // ---------------------------------------------------------------- create / remove

  /** Removing a freshly created equipment restores the catalog: the row and its
      spec row both go, whatever the case of the type it was created with. */
  lemma RemoveUndoesCreate(c: Catalog, dto: NewEquipment, newId: Id, specId: Id)
    requires newId !in c.equipment
    requires specId !in c.computerSpecs && specId !in c.printerSpecs && specId !in c.phoneSpecs
    requires Create(c, dto, newId, specId).Success?
    ensures Remove(Create(c, dto, newId, specId).value.0, newId) == Success(c)
  {
    var c1 := Create(c, dto, newId, specId).value.0;
    var e := Create(c, dto, newId, specId).value.1;
    assert c1.equipment[newId] == e;
    var c2 := DropSpec(c1, e, KindOf(Lower(e.kind)));
    assert c2.equipment - {newId} == c.equipment;
    if e.computerSpecs.Some? {
      assert c2.computerSpecs == c.computerSpecs;
    } else if e.printerSpecs.Some? {
      assert c2.printerSpecs == c.printerSpecs;
    } else if e.phoneSpecs.Some? {
      assert c2.phoneSpecs == c.phoneSpecs;
    }
  }

  /** As written, `remove` leaves the spec row behind for every equipment whose
      type was sent in anything but lower case (say "Computer") with a spec. */
  lemma RemoveAsWrittenOrphansSpec(c: Catalog, dto: NewEquipment, newId: Id, specId: Id)
    requires newId !in c.equipment
    requires specId !in c.computerSpecs && specId !in c.printerSpecs && specId !in c.phoneSpecs
    requires KindOf(Lower(dto.kind)) == Some(Computer) && KindOf(dto.kind).None?
    requires dto.computerSpecs.Some?
    ensures RemoveAsWritten(Create(c, dto, newId, specId).value.0, newId).value.computerSpecs[specId]
              == dto.computerSpecs.value
  {
  }

  /** The input that shows it: a computer created with type "Computer". */
  lemma RemoveAsWrittenCounterexample()
    ensures var dto := NewEquipment("Laptop Pro", "Computer", "TechBrand", "X-2000", "laptop", 1299, 50,
                                    "2 years", 0, None, Some(ComputerSpecs("i7", "16GB", "1TB", "Windows")),
                                    None, None);
            var empty := Catalog(map[], map[], map[], map[]);
            && Create(empty, dto, "eq", "spec").Success?
            && RemoveAsWritten(Create(empty, dto, "eq", "spec").value.0, "eq").value.computerSpecs != map[]
  {
    var dto := NewEquipment("Laptop Pro", "Computer", "TechBrand", "X-2000", "laptop", 1299, 50,
                            "2 years", 0, None, Some(ComputerSpecs("i7", "16GB", "1TB", "Windows")),
                            None, None);
    assert Lower("Computer") == "computer";
    RemoveAsWrittenOrphansSpec(Catalog(map[], map[], map[], map[]), dto, "eq", "spec");
  }

  /** With the corrected dispatch, `update` merges `specifications` into the spec
      row of an equipment created with a spec, whatever its variant and the case
      of its type. */
  lemma UpdateMergesSpecOfCreated(c: Catalog, dto: NewEquipment, newId: Id, specId: Id, sp: SpecPatch)
    requires newId !in c.equipment
    requires specId !in c.computerSpecs && specId !in c.printerSpecs && specId !in c.phoneSpecs
    requires Create(c, dto, newId, specId).Success?
    ensures var c1 := Create(c, dto, newId, specId).value.0;
            var p := EquipmentPatch(None, None, None, None, None, None, None, None, None, None, None, Some(sp));
            var c2 := Update(c1, newId, p).value.0;
            && (KindOf(Lower(dto.kind)) == Some(Computer) && dto.computerSpecs.Some? ==>
                  c2.computerSpecs[specId] == PatchComputer(dto.computerSpecs.value, sp))
            && (KindOf(Lower(dto.kind)) == Some(Printer) && dto.printerSpecs.Some? ==>
                  c2.printerSpecs[specId] == PatchPrinter(dto.printerSpecs.value, sp))
            && (KindOf(Lower(dto.kind)) == Some(Phone) && dto.phoneSpecs.Some? ==>
                  c2.phoneSpecs[specId] == PatchPhone(dto.phoneSpecs.value, sp))
  {
    var c1 := Create(c, dto, newId, specId).value.0;
    var p := EquipmentPatch(None, None, None, None, None, None, None, None, None, None, None, Some(sp));
    assert Patch(c1.equipment[newId], p) == c1.equipment[newId];
  }

  /** As written, the same update leaves that spec row untouched when the type
      was sent in anything but lower case. */
  lemma UpdateAsWrittenSkipsSpecOfCreated(c: Catalog, dto: NewEquipment, newId: Id, specId: Id, sp: SpecPatch)
    requires newId !in c.equipment
    requires specId !in c.computerSpecs && specId !in c.printerSpecs && specId !in c.phoneSpecs
    requires KindOf(Lower(dto.kind)) == Some(Computer) && KindOf(dto.kind).None? && dto.computerSpecs.Some?
    ensures var c1 := Create(c, dto, newId, specId).value.0;
            var p := EquipmentPatch(None, None, None, None, None, None, None, None, None, None, None, Some(sp));
            UpdateAsWritten(c1, newId, p).value.0.computerSpecs[specId] == dto.computerSpecs.value
  {
    var c1 := Create(c, dto, newId, specId).value.0;
    var p := EquipmentPatch(None, None, None, None, None, None, None, None, None, None, None, Some(sp));
    assert Patch(c1.equipment[newId], p) == c1.equipment[newId];
  }

  // ---------------------------------------------------------------- lookups

  /** A created equipment is found under its id, exactly as created. */
  lemma CreatedEquipmentIsFound(c: Catalog, dto: NewEquipment, newId: Id, specId: Id)
    requires newId !in c.equipment
    requires specId !in c.computerSpecs && specId !in c.printerSpecs && specId !in c.phoneSpecs
    requires Create(c, dto, newId, specId).Success?
    ensures FindOne(Create(c, dto, newId, specId).value.0, newId) == Success(Create(c, dto, newId, specId).value.1)
    ensures FindOne(Create(c, dto, newId, specId).value.0, newId).value.stock == dto.stock
  {
  }

  /** `findAll` and `findOne` agree: a listed row is the row `findOne` returns,
      projected, and every row `findOne` finds is listed. */
  lemma FindAllAgreesWithFindOne(c: Catalog, id: Id)
    ensures id in FindAll(c) <==> FindOne(c, id).Success?
    ensures id in FindAll(c) ==> FindAll(c)[id] == ToResponse(FindOne(c, id).value)
  {
  }
}
