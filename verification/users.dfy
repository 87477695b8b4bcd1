/** The authenticated principal every gated operation receives, and the
    `ValidRoles` names the services check (src/auth/interfaces/valid-roles.ts). */
module Users {
  import opened Base

  /** A user as the authentication collaborator presents it: the role set is the
      `roles` text array of the user row. */
  datatype User = User(id: Id, fullName: string, email: string, roles: seq<string>)

  const Admin := "admin"
  const Client := "client"
  const Salesperson := "salesperson"

  /** `user.roles.includes(role)`. */
  predicate HasRole(u: User, role: string)
  {
    role in u.roles
  }
}
