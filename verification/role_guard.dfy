/** The role guard every gated endpoint runs before its handler
    (`UserRoleGuard.canActivate`). */
module RoleGuard {
  import opened Base
  import opened Users

  /** `${validRoles}`: an array printed as its elements joined by commas. */
  function JoinRoles(roles: seq<string>): string
  {
    if |roles| == 0 then ""
    else if |roles| == 1 then roles[0]
    else roles[0] + "," + JoinRoles(roles[1..])
  }

  /** The guard's decision. `declared` is the handler's `@Auth(...)` role list
      (None when the handler declares none) and `user` the request's principal.
      It either grants (true) or fails Forbidden; it never answers false. */
  function CanActivate(declared: Option<seq<string>>, user: Option<User>): (r: Result<bool>)
    ensures r.Success? ==> r.value
    ensures r.Failure? ==> r.error.kind == Forbidden
    ensures (declared.None? || |declared.value| == 0) ==> r == Success(true)
    ensures declared.Some? && |declared.value| > 0 && user.None? ==>
              r == Failure(Error(Forbidden, "User not found in request"))
  {
    if declared.None? || |declared.value| == 0 then Success(true)
    else if user.None? then Failure(Error(Forbidden, "User not found in request"))
    else if exists i :: 0 <= i < |user.value.roles| && user.value.roles[i] in declared.value then Success(true)
    else Failure(Error(Forbidden, "User " + user.value.fullName + " need a valid role: [" + JoinRoles(declared.value) + "]"))
  }

  /** The guard as set intersection: with a non-empty declared list and a user
      present, access is granted exactly when the user's role set meets the
      declared set. */
  lemma GrantedIffRolesIntersect(declared: seq<string>, user: User)
    requires |declared| > 0
    ensures CanActivate(Some(declared), Some(user)).Success?
        <==> (set r | r in user.roles) * (set r | r in declared) != {}
  {
    var mine := set r | r in user.roles;
    var wanted := set r | r in declared;
    if CanActivate(Some(declared), Some(user)).Success? {
      var i :| 0 <= i < |user.roles| && user.roles[i] in declared;
      assert user.roles[i] in mine * wanted;
    } else {
      forall r | r in mine
        ensures r !in wanted
      {
        var i :| 0 <= i < |user.roles| && user.roles[i] == r;
      }
    }
  }
}
