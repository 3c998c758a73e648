/**
 * The session: the token kept in local storage, the user derived from its
 * claims, the expiry rule, logging in and logging out. Decoding the token
 * and reading the clock are not modelled; their results are parameters:
 * `claims` is what decoding the stored token yields (`None` when it
 * cannot be decoded) and `now` is the time in milliseconds.
 */
module Auth {
  import opened Wrappers

  /** The claims the client reads from a token: `exp` is in seconds. */
  datatype Claims = Claims(sub: Option<string>, role: Option<string>, exp: Option<int>)

  datatype User = User(username: Option<string>, role: string)

  datatype Session = Session(
    storedToken: Option<string>,
    token: Option<string>,
    user: Option<User>,
    isLoading: bool)

  /** The provider as it mounts: the token read from storage, no user yet. */
  function Mount(stored: Option<string>): (s: Session)
    ensures s.storedToken == stored && s.token == stored && s.user.None? && s.isLoading
  {
    Session(stored, stored, None, true)
  }

  /** A stored token counts only when it is a non-empty string. */
  predicate HasToken(stored: Option<string>) {
    stored.Some? && stored.value != ""
  }

  /** `exp * 1000 < Date.now()`. A missing `exp` gives NaN, and a comparison
      with NaN is false: such a token never expires. */
  predicate Expired(c: Claims, now: int) {
    c.exp.Some? && c.exp.value * 1000 < now
  }

  /** `role || 'ROLE_USER'`. */
  function RoleOf(c: Claims): (role: string)
    ensures c.role.Some? && c.role.value != "" ==> role == c.role.value
    ensures c.role.None? || c.role.value == "" ==> role == "ROLE_USER"
  {
    if c.role.Some? && c.role.value != "" then c.role.value else "ROLE_USER"
  }

  /** The effect that derives the user from the stored token. Without one
      there is no user; a token that cannot be decoded or has expired is
      removed from storage and from the state; otherwise the user is taken
      from the claims. Loading ends in every case. */
  function Validate(s: Session, claims: Option<Claims>, now: int): (r: Session)
    ensures !r.isLoading
    ensures !HasToken(s.storedToken) ==> r == s.(user := None, isLoading := false)
    ensures HasToken(s.storedToken) && (claims.None? || Expired(claims.value, now)) ==>
      r == Session(None, None, None, false)
    ensures HasToken(s.storedToken) && claims.Some? && !Expired(claims.value, now) ==>
      r == s.(user := Some(User(claims.value.sub, RoleOf(claims.value))), isLoading := false)
  {
    if !HasToken(s.storedToken) then s.(user := None, isLoading := false)
    else if claims.None? || Expired(claims.value, now) then Session(None, None, None, false)
    else s.(user := Some(User(claims.value.sub, RoleOf(claims.value))), isLoading := false)
  }

  /** `login(newToken)`: the token is stored and becomes the state's token;
      the user follows when the effect runs again. */
  function Login(s: Session, newToken: string): (r: Session)
    ensures r.storedToken == Some(newToken) && r.token == Some(newToken)
    ensures r.user == s.user && r.isLoading == s.isLoading
  {
    s.(storedToken := Some(newToken), token := Some(newToken))
  }

  /** `logout()`: the token is removed and the user dropped. */
  function Logout(s: Session): (r: Session)
    ensures r.storedToken.None? && r.token.None? && r.user.None?
    ensures r.isLoading == s.isLoading
  {
    s.(storedToken := None, token := None, user := None)
  }

  /** After validation there is a user exactly when a non-empty stored token
      decodes to claims that have not expired; a user is never left behind
      without the token it came from. */
  lemma ValidatedSession(s: Session, claims: Option<Claims>, now: int)
    ensures var r := Validate(s, claims, now);
      r.user.Some? <==> HasToken(s.storedToken) && claims.Some? && !Expired(claims.value, now)
    ensures var r := Validate(s, claims, now);
      r.user.Some? ==> r.storedToken == s.storedToken && HasToken(r.storedToken)
  {
  }

  /** Logging in with a token whose claims are current gives the user named
      by its subject, with the role it carries or ROLE_USER. */
  lemma LoginThenValidate(s: Session, t: string, c: Claims, now: int)
    requires t != "" && !Expired(c, now)
    ensures Validate(Login(s, t), Some(c), now).user == Some(User(c.sub, RoleOf(c)))
  {
  }

  /** Logging out leaves no user, whatever a later validation is given. */
  lemma LogoutThenValidate(s: Session, claims: Option<Claims>, now: int)
    ensures Validate(Logout(s), claims, now).user.None?
    ensures Validate(Logout(s), claims, now).storedToken.None?
  {
  }

  /** Validation is idempotent: running the effect again with the same
      decoding and clock changes nothing. */
  lemma ValidateIdempotent(s: Session, claims: Option<Claims>, now: int)
    ensures Validate(Validate(s, claims, now), claims, now) == Validate(s, claims, now)
  {
  }

  /** An expired token stays expired; a token without `exp` never expires. */
  lemma ExpiryIsFinal(c: Claims, now: int, later: int)
    requires now <= later
    ensures Expired(c, now) ==> Expired(c, later)
    ensures c.exp.None? ==> !Expired(c, later)
  {
  }

  /** The boundary: a token is still valid at the very millisecond `exp * 1000`. */
  lemma ValidUntilExpiry(c: Claims)
    requires c.exp.Some?
    ensures !Expired(c, c.exp.value * 1000) && Expired(c, c.exp.value * 1000 + 1)
  {
  }
}
