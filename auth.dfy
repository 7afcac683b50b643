/**
 * The authentication middleware: where the token is read from, how the
 * outcome of verifying it and loading the account maps to a status, and
 * the role gates `isAdministrator`, `isCityAdminOrAbove` and
 * `canManageAdmin`.
 */
module Auth {
  import opened Wrappers
  import opened Accounts

  /** `req.headers.token || req.cookies.token`: the header is preferred; an empty header falls back to the cookie. */
  function TokenOf(header: Option<string>, cookie: Option<string>): (r: Option<string>)
    ensures header.Some? && header.value != "" ==> r == header
    ensures (header.None? || header.value == "") ==> r == cookie
  {
    if header.Some? && header.value != "" then header else cookie
  }

  /** What verifying a token gives: the account id it names, or the error the verifier throws. */
  datatype Verified = UserId(id: string) | MalformedToken | ExpiredToken | VerifierFailure

  /** `protectRoute`: 401 without a token or for a bad or expired one, 500 for other failures, 404 for an unknown account, 403 for status "inactive". */
  function ProtectRoute(header: Option<string>, cookie: Option<string>, verify: string -> Verified,
                        accounts: map<string, Admin>): (r: Outcome<Admin>)
    ensures r.Done? <==> (TokenOf(header, cookie).Some? && TokenOf(header, cookie).value != ""
                          && verify(TokenOf(header, cookie).value).UserId?
                          && verify(TokenOf(header, cookie).value).id in accounts
                          && accounts[verify(TokenOf(header, cookie).value).id].status != "inactive")
    ensures r.Done? ==> r.value == accounts[verify(TokenOf(header, cookie).value).id]
    ensures r.Fail? ==> r.status in {401, 403, 404, 500}
    ensures TokenOf(header, cookie).None? || TokenOf(header, cookie).value == "" ==> r == Fail(401)
    ensures TokenOf(header, cookie).Some? && TokenOf(header, cookie).value != "" ==>
      var v := verify(TokenOf(header, cookie).value);
      && (v.MalformedToken? || v.ExpiredToken? ==> r == Fail(401))
      && (v.VerifierFailure? ==> r == Fail(500))
      && (v.UserId? && v.id !in accounts ==> r == Fail(404))
      && (v.UserId? && v.id in accounts && accounts[v.id].status == "inactive" ==> r == Fail(403))
  {
    var token := TokenOf(header, cookie);
    if token.None? || token.value == "" then Fail(401)
    else
      match verify(token.value)
      case MalformedToken => Fail(401)
      case ExpiredToken => Fail(401)
      case VerifierFailure => Fail(500)
      case UserId(id) =>
        if id !in accounts then Fail(404)
        else if accounts[id].status == "inactive" then Fail(403)
        else Done(accounts[id])
  }

  /**
   * The account-status check is case-sensitive: an account whose status is
   * "Inactive", the only deactivated value an update can write, still
   * passes the middleware.
   */
  lemma CapitalisedInactivePasses(token: string, verify: string -> Verified, accounts: map<string, Admin>)
    requires token != "" && verify(token).UserId? && verify(token).id in accounts
    requires accounts[verify(token).id].status == "Inactive"
    ensures ProtectRoute(Some(token), None, verify, accounts) == Done(accounts[verify(token).id])
  {
  }

  /** `isAdministrator`: None lets the request through, otherwise the status. */
  function IsAdministrator(admin: Admin): (r: Option<int>)
    ensures r.None? <==> admin.role == Administrator
    ensures r.Some? ==> r.value == 403
  {
    if admin.role != Administrator then Some(403) else None
  }

  /** `isCityAdminOrAbove`. */
  function IsCityAdminOrAbove(admin: Admin): (r: Option<int>)
    ensures r.None? <==> admin.role == Administrator || admin.role == CityAdmin
    ensures r.Some? ==> r.value == 403
  {
    if admin.role != Administrator && admin.role != CityAdmin then Some(403) else None
  }

  /** Every account that passes the administrator gate passes the city-administrator gate. */
  lemma AdministratorGateIsStricter(admin: Admin)
    ensures IsAdministrator(admin).None? ==> IsCityAdminOrAbove(admin).None?
    ensures IsCityAdminOrAbove(admin).None? && admin.role != CityAdmin ==> IsAdministrator(admin).None?
  {
  }

  /** Whether `current` may manage `target`: the rule behind `canManageAdmin`. */
  predicate MayManage(current: Admin, target: Admin) {
    || current.role == Administrator
    || (current.role == CityAdmin && target.role == UserRole && target.city == current.city)
    || (current.role == UserRole && current.id == target.id)
  }

  /** `canManageAdmin`: 400 without a target id (`req.params.id || req.body.adminId`), 404 for an unknown target, 403 when not allowed. */
  function CanManageAdmin(current: Admin, paramId: Option<string>, bodyId: Option<string>, accounts: map<string, Admin>): (r: Outcome<Admin>)
    ensures r.Done? ==> r.value in accounts.Values && MayManage(current, r.value)
    ensures r.Fail? ==> r.status in {400, 403, 404}
    ensures var id := TargetId(paramId, bodyId);
      && (id.None? || id.value == "" ==> r == Fail(400))
      && (id.Some? && id.value != "" && id.value !in accounts ==> r == Fail(404))
      && (id.Some? && id.value != "" && id.value in accounts ==>
            (r.Done? <==> MayManage(current, accounts[id.value]))
            && (r.Done? ==> r.value == accounts[id.value])
            && (r.Fail? ==> r == Fail(403)))
  {
    var id := TargetId(paramId, bodyId);
    if id.None? || id.value == "" then Fail(400)
    else if id.value !in accounts then Fail(404)
    else
      var target := accounts[id.value];
      if current.role == Administrator then Done(target)
      else if current.role == CityAdmin then
        if target.role == UserRole && target.city == current.city then Done(target) else Fail(403)
      else if current.role == UserRole then
        if current.id == target.id then Done(target) else Fail(403)
      else Fail(403)
  }

  /** `req.params.id || req.body.adminId`: a non-empty path id wins, otherwise the body's id. */
  function TargetId(paramId: Option<string>, bodyId: Option<string>): (r: Option<string>)
    ensures paramId.Some? && paramId.value != "" ==> r == paramId
    ensures paramId.None? || paramId.value == "" ==> r == bodyId
  {
    if paramId.Some? && paramId.value != "" then paramId else bodyId
  }

  /** A known target is let through exactly when the rule allows it. */
  lemma CanManageAdminExact(current: Admin, id: string, accounts: map<string, Admin>)
    requires id != "" && id in accounts
    ensures CanManageAdmin(current, Some(id), None, accounts).Done? <==> MayManage(current, accounts[id])
    ensures !MayManage(current, accounts[id]) ==> CanManageAdmin(current, Some(id), None, accounts) == Fail(403)
  {
  }
}
