/**
 * The two route guards: the admin guard and the guard for pages that need
 * any signed-in user. Each decides, from the session's loading flag and
 * user, between a spinner, the nested routes and a redirect.
 */
module RouteGuards {
  import opened Wrappers
  import opened Auth

  datatype Decision = ShowSpinner | ShowOutlet | Redirect(path: string)

  const AdminRole := "ROLE_ADMIN"

  function AdminRoute(isLoading: bool, user: Option<User>): (d: Decision)
    ensures d == ShowSpinner <==> isLoading
    ensures d == ShowOutlet <==> !isLoading && user.Some? && user.value.role == AdminRole
    ensures d == Redirect("/login") <==> !isLoading && user.None?
    ensures d == Redirect("/access-denied") <==> !isLoading && user.Some? && user.value.role != AdminRole
  {
    if isLoading then ShowSpinner
    else if user.None? then Redirect("/login")
    else if user.value.role == AdminRole then ShowOutlet
    else Redirect("/access-denied")
  }

  function ProtectedRoute(isLoading: bool, user: Option<User>): (d: Decision)
    ensures d == ShowSpinner <==> isLoading
    ensures d == ShowOutlet <==> !isLoading && user.Some?
    ensures d == Redirect("/login") <==> !isLoading && user.None?
  {
    if isLoading then ShowSpinner
    else if user.Some? then ShowOutlet
    else Redirect("/login")
  }

  /** Whoever the admin guard lets in, the user guard lets in too; the two
      agree on waiting and on sending anonymous visitors to the login page,
      and only a signed-in non-admin tells them apart. */
  lemma AdminImpliesSignedIn(isLoading: bool, user: Option<User>)
    ensures AdminRoute(isLoading, user) == ShowOutlet ==> ProtectedRoute(isLoading, user) == ShowOutlet
    ensures AdminRoute(isLoading, user) != ProtectedRoute(isLoading, user) <==>
      !isLoading && user.Some? && user.value.role != AdminRole
  {
  }

  /** Once the session is validated neither guard waits, and the admin area
      opens exactly for a current token that carries the admin role. */
  lemma GuardsAfterValidation(s: Session, claims: Option<Claims>, now: int)
    ensures var v := Validate(s, claims, now);
      AdminRoute(v.isLoading, v.user) != ShowSpinner && ProtectedRoute(v.isLoading, v.user) != ShowSpinner
    ensures var v := Validate(s, claims, now);
      AdminRoute(v.isLoading, v.user) == ShowOutlet <==>
        HasToken(s.storedToken) && claims.Some? && !Expired(claims.value, now) && RoleOf(claims.value) == AdminRole
  {
  }

  /** A token without a role claim is an ordinary user's: signed in, but
      turned away from the admin area. */
  lemma NoRoleClaimIsNoAdmin(s: Session, t: string, c: Claims, now: int)
    requires t != "" && !Expired(c, now) && c.role.None?
    ensures var v := Validate(Login(s, t), Some(c), now);
      ProtectedRoute(v.isLoading, v.user) == ShowOutlet &&
      AdminRoute(v.isLoading, v.user) == Redirect("/access-denied")
  {
  }

  /** After logging out both guards send the visitor to the login page once
      loading is over. */
  lemma LogoutLocksOut(s: Session)
    requires !s.isLoading
    ensures var v := Logout(s);
      AdminRoute(v.isLoading, v.user) == Redirect("/login") && ProtectedRoute(v.isLoading, v.user) == Redirect("/login")
  {
  }

  /** On mount both guards wait; once the stored token is validated, the
      signed-in area opens exactly for a non-empty token whose claims are
      current, and a missing or empty token is left in storage as it was. */
  lemma MountThenValidate(stored: Option<string>, claims: Option<Claims>, now: int)
    ensures AdminRoute(Mount(stored).isLoading, Mount(stored).user) == ShowSpinner
    ensures ProtectedRoute(Mount(stored).isLoading, Mount(stored).user) == ShowSpinner
    ensures var v := Validate(Mount(stored), claims, now);
      ProtectedRoute(v.isLoading, v.user) == ShowOutlet <==> HasToken(stored) && claims.Some? && !Expired(claims.value, now)
    ensures var v := Validate(Mount(stored), claims, now);
      !HasToken(stored) ==> v.storedToken == stored && ProtectedRoute(v.isLoading, v.user) == Redirect("/login")
  {
  }
}
