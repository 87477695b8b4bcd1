/** The role store (`RolesService`, src/roles/roles.service.ts) over the `roles`
    table, whose `name` column carries a unique constraint
    (src/roles/entities/role.entity.ts). */
module Roles {
  import opened Base

  datatype Role = Role(id: Id, name: string, description: Option<string>, permissions: seq<string>)

  /** `CreateRoleDto`. */
  datatype NewRole = NewRole(name: string, description: Option<string>, permissions: seq<string>)

  /** `UpdateRoleDto`: every field optional; an absent field keeps its value. */
  datatype RolePatch = RolePatch(name: Option<string>, description: Option<string>, permissions: Option<seq<string>>)

  /** The `roles` table, keyed by id. */
  type RoleTable = map<Id, Role>

  /** Every row is stored under its own id. */
  ghost predicate WellKeyed(t: RoleTable)
  {
    forall id :: id in t ==> t[id].id == id
  }

  /** No two rows share a name: the table's unique constraint. */
  ghost predicate UniqueNames(t: RoleTable)
  {
    forall a, b :: a in t && b in t && t[a].name == t[b].name ==> a == b
  }

  predicate NameTaken(t: RoleTable, name: string)
  {
    exists id :: id in t && t[id].name == name
  }

  /** Some row other than `id` carries `name`. */
  predicate NameTakenByOther(t: RoleTable, id: Id, name: string)
  {
    exists other :: other in t && other != id && t[other].name == name
  }

  function NotFoundError(id: Id): Error
  {
    Error(NotFound, "Role with ID " + id + " not found")
  }

  /** The row `{ ...role, ...dto }` that `update` saves. */
  function Merge(r: Role, p: RolePatch): Role
  {
    Role(r.id, p.name.GetOr(r.name), if p.description.Some? then p.description else r.description,
         p.permissions.GetOr(r.permissions))
  }

  /** `create`: a name already in the table fails Conflict and writes nothing;
      otherwise the new row is stored under the generated id. */
  function Create(t: RoleTable, dto: NewRole, newId: Id): (r: Result<(RoleTable, Role)>)
    requires newId !in t
    ensures r.Failure? <==> NameTaken(t, dto.name)
    ensures r.Failure? ==> r.error == Error(Conflict, "Role '" + dto.name + "' already exists")
    ensures r.Success? ==> r.value.1 == Role(newId, dto.name, dto.description, dto.permissions)
    ensures r.Success? ==> r.value.0 == t[newId := r.value.1] && |r.value.0| == |t| + 1
  {
    if NameTaken(t, dto.name) then Failure(Error(Conflict, "Role '" + dto.name + "' already exists"))
    else
      var role := Role(newId, dto.name, dto.description, dto.permissions);
      Success((t[newId := role], role))
  }

  /** `findOne`: the stored row, or NotFound. */
  function FindOne(t: RoleTable, id: Id): (r: Result<Role>)
    ensures r.Failure? <==> id !in t
    ensures r.Failure? ==> r.error == NotFoundError(id)
    ensures r.Success? ==> r.value == t[id]
  {
    if id in t then Success(t[id]) else Failure(NotFoundError(id))
  }

  /** `update`: requires the row to exist, merges the supplied fields over it and
      saves; a merged name held by another row violates the unique constraint. */
  function Update(t: RoleTable, id: Id, p: RolePatch): (r: Result<(RoleTable, Role)>)
    ensures id !in t ==> r == Failure(NotFoundError(id))
    ensures r.Success? ==> id in t && r.value.0 == t[id := r.value.1]
    ensures r.Success? ==> r.value.1.name == (if p.name.Some? then p.name.value else t[id].name)
    ensures r.Success? ==> r.value.1.permissions == (if p.permissions.Some? then p.permissions.value else t[id].permissions)
    ensures r.Success? ==> r.value.1.description == (if p.description.Some? then p.description else t[id].description)
    ensures id in t && r.Failure? ==> r.error.kind == Internal
    ensures id in t ==> (r.Failure? <==> NameTakenByOther(t, id, if p.name.Some? then p.name.value else t[id].name))
  {
    if id !in t then Failure(NotFoundError(id))
    else
      var merged := Merge(t[id], p);
      if NameTakenByOther(t, id, merged.name) then
        Failure(Error(Internal, "duplicate key value violates unique constraint"))
      else
        Success((t[id := merged], merged))
  }

  /** `remove`: requires the row to exist and deletes exactly that row. */
  function Remove(t: RoleTable, id: Id): (r: Result<RoleTable>)
    ensures r.Failure? <==> id !in t
    ensures r.Failure? ==> r.error == NotFoundError(id)
    ensures r.Success? ==> r.value.Keys == t.Keys - {id}
    ensures r.Success? ==> forall k :: k in r.value ==> r.value[k] == t[k]
  {
    if id !in t then Failure(NotFoundError(id)) else Success(t - {id})
  }

  /** `findByName`: the row carrying that name, or None; it never fails. */
  method FindByName(t: RoleTable, name: string) returns (r: Option<Role>)
    ensures r.Some? ==> r.value.name == name && exists id :: id in t && t[id] == r.value
    ensures r.None? <==> !NameTaken(t, name)
  {
    var todo := t.Keys;
    while todo != {}
      invariant todo <= t.Keys
      invariant forall id :: id in t.Keys - todo ==> t[id].name != name
      decreases todo
    {
      var id :| id in todo;
      if t[id].name == name {
        return Some(t[id]);
      }
      todo := todo - {id};
    }
    return None;
  }

  /** The unique-name constraint holds of every table the role store produces. */
  lemma CreatePreservesUniqueNames(t: RoleTable, dto: NewRole, newId: Id)
    requires newId !in t
    requires UniqueNames(t) && WellKeyed(t)
    ensures Create(t, dto, newId).Success? ==>
              UniqueNames(Create(t, dto, newId).value.0) && WellKeyed(Create(t, dto, newId).value.0)
  {
  }

  lemma UpdatePreservesUniqueNames(t: RoleTable, id: Id, p: RolePatch)
    requires UniqueNames(t) && WellKeyed(t)
    ensures Update(t, id, p).Success? ==>
              UniqueNames(Update(t, id, p).value.0) && WellKeyed(Update(t, id, p).value.0)
  {
  }

  lemma RemovePreservesUniqueNames(t: RoleTable, id: Id)
    requires UniqueNames(t) && WellKeyed(t)
    ensures Remove(t, id).Success? ==>
              UniqueNames(Remove(t, id).value) && WellKeyed(Remove(t, id).value)
  {
  }

  /** After a successful create the new role is what `findByName` can find, and
      nothing else carries its name. */
  lemma CreatedRoleIsOnlyHolderOfName(t: RoleTable, dto: NewRole, newId: Id)
    requires newId !in t
    requires Create(t, dto, newId).Success?
    ensures forall id :: id in Create(t, dto, newId).value.0 && Create(t, dto, newId).value.0[id].name == dto.name ==> id == newId
  {
  }

  /** A created role is found under its id, exactly as created. */
  lemma CreatedRoleIsFound(t: RoleTable, dto: NewRole, newId: Id)
    requires newId !in t
    requires Create(t, dto, newId).Success?
    ensures FindOne(Create(t, dto, newId).value.0, newId) == Success(Role(newId, dto.name, dto.description, dto.permissions))
  {
  }
}
