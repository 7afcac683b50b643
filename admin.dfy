/**
 * The administrator-account handlers: the `transform` of an account for
 * responses, and the validation and permission rules of signup, creation,
 * login, detail and password updates, listing, lookup and deletion, over an
 * in-memory account table.
 */
module AdminController {
  import opened Wrappers
  import opened Strings
  import opened Js
  import opened Accounts

  // ---------------------------------------------------------------- transform

  /** `r[k]`, undefined when absent. */
  function At(r: map<string, JsValue>, k: string): JsValue {
    if k in r then r[k] else Undefined
  }

  /** `transform(admin)`: null for no account; otherwise `{ _id: admin.id, ...admin }` without `id` and `password`. */
  function Transform(admin: Option<map<string, JsValue>>): (r: Option<map<string, JsValue>>)
    ensures admin.None? <==> r.None?
    ensures r.Some? ==> "id" !in r.value && "password" !in r.value && "_id" in r.value
    ensures r.Some? && "_id" !in admin.value ==> r.value["_id"] == At(admin.value, "id")
    ensures r.Some? ==> forall k :: k != "id" && k != "password" && k != "_id" ==>
      (k in r.value <==> k in admin.value) && (k in r.value ==> r.value[k] == admin.value[k])
  {
    if admin.None? then None
    else Some((map["_id" := At(admin.value, "id")] + admin.value) - {"id", "password"})
  }

  /** Transforming a transformed account changes nothing. */
  lemma TransformIdempotent(admin: Option<map<string, JsValue>>)
    ensures Transform(Transform(admin)) == Transform(admin)
  {
    if admin.Some? {
      var once := Transform(admin).value;
      assert "_id" in once && "id" !in once && "password" !in once;
      var twice := (map["_id" := At(once, "id")] + once) - {"id", "password"};
      assert Transform(Some(once)) == Some(twice);
      assert forall k :: k in twice <==> k in once;
      assert forall k :: k in twice ==> twice[k] == once[k];
      assert twice == once;
    }
  }

  // ---------------------------------------------------------------- the account table

  /** A stored account: the public record and the password hash. */
  datatype Account = Account(admin: Admin, passwordHash: string)

  /** The ids of the administrator accounts. */
  function AdministratorIds(accounts: map<string, Account>): set<string> {
    set id | id in accounts && accounts[id].admin.role == Administrator
  }

  /** Some account other than `except` has this e-mail address. */
  predicate EmailTaken(accounts: map<string, Account>, email: string, except: Option<string>) {
    exists id :: id in accounts && accounts[id].admin.email == email && Some(id) != except
  }

  /** A request body of signup and account creation. */
  datatype NewAccount = NewAccount(name: JsValue, email: JsValue, password: JsValue, role: JsValue, city: JsValue)

  /** The body names all four of name, e-mail, password and role. */
  predicate Complete(b: NewAccount) {
    Truthy(b.email) && Truthy(b.password) && Truthy(b.name) && Truthy(b.role)
  }

  /** The role is one that needs a city. */
  predicate NeedsCity(b: NewAccount) {
    b.role == Str(CityAdmin) || b.role == Str(UserRole)
  }

  /**
   * `adminSignup`'s checks in order: 400 for a missing field, 403 for a
   * second administrator, 409 for a known e-mail, 400 for a city-bound role
   * without a city.
   */
  function SignupRefusal(b: NewAccount, accounts: map<string, Account>): (r: Option<int>)
    ensures !Complete(b) ==> r == Some(400)
    ensures Complete(b) && AdministratorIds(accounts) != {} && b.role == Str(Administrator) ==> r == Some(403)
    ensures (Complete(b) && !(AdministratorIds(accounts) != {} && b.role == Str(Administrator))
            && EmailTaken(accounts, ToJsString(b.email), None)) ==> r == Some(409)
    ensures (Complete(b) && !(AdministratorIds(accounts) != {} && b.role == Str(Administrator))
            && !EmailTaken(accounts, ToJsString(b.email), None) && NeedsCity(b) && !Truthy(b.city)) ==> r == Some(400)
    ensures r.None? <==> (Complete(b) && !(AdministratorIds(accounts) != {} && b.role == Str(Administrator))
                          && !EmailTaken(accounts, ToJsString(b.email), None) && !(NeedsCity(b) && !Truthy(b.city)))
  {
    if !Complete(b) then Some(400)
    else if AdministratorIds(accounts) != {} && b.role == Str(Administrator) then Some(403)
    else if EmailTaken(accounts, ToJsString(b.email), None) then Some(409)
    else if NeedsCity(b) && !Truthy(b.city) then Some(400)
    else None
  }

  /** The account a successful signup or creation stores: `city || null`. */
  function NewRecord(id: string, b: NewAccount, hash: string -> string): (a: Account)
    ensures a.admin.id == id && a.admin.email == ToJsString(b.email)
    ensures Truthy(b.city) <==> a.admin.city.Some?
  {
    Account(Admin(id, ToJsString(b.name), ToJsString(b.email), ToJsString(b.role),
                  if Truthy(b.city) then Some(ToJsString(b.city)) else None, "Active"),
            hash(ToJsString(b.password)))
  }

  /** `city !== currentAdmin.city` between a body value and a stored city. */
  predicate SameCity(city: JsValue, stored: Option<string>) {
    (city.Str? && stored == Some(city.s)) || (city.Null? && stored.None?)
  }

  /** The role rules of `createAdmin` let `current` create the account `b` describes. */
  predicate CreatePermitted(current: Admin, b: NewAccount) {
    current.role == Administrator || (current.role == CityAdmin && b.role == Str(UserRole) && SameCity(b.city, current.city))
  }

  /**
   * `createAdmin`: an administrator may create any role; a city
   * administrator only a user in their own city; anyone else nothing. The
   * role checks come before the field checks.
   */
  function CreateRefusal(current: Admin, b: NewAccount, accounts: map<string, Account>): (r: Option<int>)
    ensures current.role != Administrator && current.role != CityAdmin ==> r == Some(403)
    ensures current.role == CityAdmin && (b.role != Str(UserRole) || !SameCity(b.city, current.city)) ==> r == Some(403)
    ensures CreatePermitted(current, b) && !Complete(b) ==> r == Some(400)
    ensures CreatePermitted(current, b) && Complete(b) && EmailTaken(accounts, ToJsString(b.email), None) ==> r == Some(409)
    ensures CreatePermitted(current, b) && Complete(b) && !EmailTaken(accounts, ToJsString(b.email), None) && NeedsCity(b) && !Truthy(b.city) ==> r == Some(400)
    ensures r.None? <==> (CreatePermitted(current, b)
                          && Complete(b) && !EmailTaken(accounts, ToJsString(b.email), None) && !(NeedsCity(b) && !Truthy(b.city)))
  {
    if current.role != Administrator && current.role != CityAdmin then Some(403)
    else if current.role == CityAdmin && b.role != Str(UserRole) then Some(403)
    else if current.role == CityAdmin && !SameCity(b.city, current.city) then Some(403)
    else if !Complete(b) then Some(400)
    else if EmailTaken(accounts, ToJsString(b.email), None) then Some(409)
    else if NeedsCity(b) && !Truthy(b.city) then Some(400)
    else None
  }

  /** A city administrator without a city can create nobody through a body whose city is text or absent. */
  lemma CitylessCityAdminCreatesNobody(current: Admin, b: NewAccount, accounts: map<string, Account>)
    requires current.role == CityAdmin && current.city.None? && !b.city.Null?
    ensures CreateRefusal(current, b, accounts) == Some(403)
  {
  }

  /** `adminLogin`: 400 without e-mail or password, 404 for an unknown e-mail, 403 for status "inactive", 401 for a wrong password. */
  function LoginRefusal(email: JsValue, password: JsValue, found: Option<Account>, matches: bool): (r: Option<int>)
    ensures !Truthy(email) || !Truthy(password) ==> r == Some(400)
    ensures Truthy(email) && Truthy(password) && found.None? ==> r == Some(404)
    ensures Truthy(email) && Truthy(password) && found.Some? && found.value.admin.status == "inactive" ==> r == Some(403)
    ensures Truthy(email) && Truthy(password) && found.Some? && found.value.admin.status != "inactive" && !matches ==> r == Some(401)
    ensures r.None? <==> Truthy(email) && Truthy(password) && found.Some? && found.value.admin.status != "inactive" && matches
  {
    if !Truthy(email) || !Truthy(password) then Some(400)
    else if found.None? then Some(404)
    else if found.value.admin.status == "inactive" then Some(403)
    else if !matches then Some(401)
    else None
  }

  // ---------------------------------------------------------------- updates

  /** `updateAdminDetails` and `updatePassword`: whether `current` may change `target`. */
  function UpdateRefusal(current: Admin, target: Admin): (r: Option<int>)
    ensures r.None? <==>
      !(current.role == CityAdmin && (target.role != UserRole || target.city != current.city))
      && !(current.role == UserRole && target.id != current.id)
    ensures r.Some? ==> r.value == 403
  {
    if current.role == CityAdmin && (target.role != UserRole || target.city != current.city) then Some(403)
    else if current.role == UserRole && target.id != current.id then Some(403)
    else None
  }

  /** Outside the three roles the update rule restricts nothing. */
  lemma UnknownRoleUnrestricted(current: Admin, target: Admin)
    requires current.role != Administrator && current.role != CityAdmin && current.role != UserRole
    ensures UpdateRefusal(current, target).None?
  {
  }

  /** The fields every permitted caller may change, in one clause each. */
  const OpenFields: set<string> := {"name", "AddressLine1", "AddressLine2", "email"}

  /** The keys the open part writes are five different keys. */
  lemma OpenKeysDistinct()
    ensures OpenFields == {"name", "AddressLine1", "AddressLine2", "email"}
    ensures "phone" !in OpenFields
    ensures "name" != "AddressLine1" && "name" != "AddressLine2" && "name" != "email"
    ensures "AddressLine1" != "AddressLine2" && "AddressLine1" != "email" && "AddressLine2" != "email"
  {
    assert "AddressLine1"[11] != "AddressLine2"[11];
    assert "phone"[0] != "email"[0];
  }

  /**
   * The first part of the `updates` object: name and address lines when
   * truthy; e-mail when truthy and not used by another account (else 409);
   * phone when given at all.
   */
  method OpenUpdates(body: map<string, JsValue>, emailTaken: bool) returns (r: Outcome<map<string, JsValue>>)
    ensures r.Fail? <==> Truthy(At(body, "email")) && emailTaken
    ensures r.Fail? ==> r.status == 409
    ensures r.Done? ==> forall k :: k in r.value ==> k in body && r.value[k] == body[k]
    ensures r.Done? ==> forall k :: k in r.value ==> k in OpenFields || k == "phone"
    ensures r.Done? ==> forall k :: k in OpenFields ==> (k in r.value <==> Truthy(At(body, k)))
    ensures r.Done? ==> ("phone" in r.value <==> "phone" in body && !body["phone"].Undefined?)
  {
    OpenKeysDistinct();
    var updates: map<string, JsValue> := map[];
    ghost var picked: set<string> := {};
    ghost var before := updates;
    if Truthy(At(body, "name")) { updates := updates["name" := body["name"]]; }
    PickStep(body, before, picked, "name");
    picked, before := picked + {"name"}, updates;
    if Truthy(At(body, "AddressLine1")) { updates := updates["AddressLine1" := body["AddressLine1"]]; }
    PickStep(body, before, picked, "AddressLine1");
    picked, before := picked + {"AddressLine1"}, updates;
    if Truthy(At(body, "AddressLine2")) { updates := updates["AddressLine2" := body["AddressLine2"]]; }
    PickStep(body, before, picked, "AddressLine2");
    picked, before := picked + {"AddressLine2"}, updates;
    if Truthy(At(body, "email")) {
      if emailTaken {
        return Fail(409);
      }
      updates := updates["email" := body["email"]];
    }
    PickStep(body, before, picked, "email");
    picked := picked + {"email"};
    assert picked == OpenFields;
    before := updates;
    if "phone" in body && !body["phone"].Undefined? { updates := updates["phone" := body["phone"]]; }
    PhoneStep(body, before);
    return Done(updates);
  }

  /** `updates` holds, unchanged from `body`, exactly the truthy fields among `ks`. */
  ghost predicate Picked(body: map<string, JsValue>, updates: map<string, JsValue>, ks: set<string>) {
    (forall k :: k in updates ==> k in body && updates[k] == body[k] && k in ks)
    && (forall k :: k in ks ==> (k in updates <==> Truthy(At(body, k))))
  }

  /** `if (phone !== undefined) updates.phone = phone` after the open fields. */
  lemma PhoneStep(body: map<string, JsValue>, updates: map<string, JsValue>)
    requires Picked(body, updates, OpenFields) && "phone" !in OpenFields
    ensures var u := if "phone" in body && !body["phone"].Undefined? then updates["phone" := body["phone"]] else updates;
      && (forall k :: k in u ==> k in body && u[k] == body[k])
      && (forall k :: k in u ==> k in OpenFields || k == "phone")
      && (forall k :: k in OpenFields ==> (k in u <==> Truthy(At(body, k))))
      && ("phone" in u <==> "phone" in body && !body["phone"].Undefined?)
  {
  }

  /** One `if (body.k) updates.k = body.k` step keeps `Picked` with `k` added. */
  lemma PickStep(body: map<string, JsValue>, updates: map<string, JsValue>, ks: set<string>, k: string)
    requires k !in ks && Picked(body, updates, ks)
    ensures Picked(body, if Truthy(At(body, k)) then updates[k := body[k]] else updates, ks + {k})
  {
  }

  /**
   * `updateAdminDetails`' `updates` object: the open fields, then city and
   * status only for an administrator, status only "Active" or "Inactive"
   * (else 400).
   */
  method BuildUpdates(current: Admin, body: map<string, JsValue>, emailTaken: bool) returns (r: Outcome<map<string, JsValue>>)
    ensures r.Fail? ==> r.status == 409 || r.status == 400
    ensures r.Fail? && r.status == 409 ==> emailTaken && Truthy(At(body, "email"))
    ensures Truthy(At(body, "email")) && emailTaken ==> r == Fail(409)
    ensures r.Done? ==> forall k :: k in r.value ==> k in body && r.value[k] == body[k]
    ensures r.Done? ==> forall k :: k in r.value ==> k in OpenFields || k in {"phone", "city", "status"}
    ensures r.Done? ==> ("city" in r.value || "status" in r.value ==> current.role == Administrator)
    ensures r.Done? && "status" in r.value ==> r.value["status"] == Str("Active") || r.value["status"] == Str("Inactive")
    ensures r.Done? ==> forall k :: k in OpenFields ==> (k in r.value <==> Truthy(At(body, k)))
    ensures r.Done? ==> ("phone" in r.value <==> "phone" in body && !body["phone"].Undefined?)
    ensures r.Done? && current.role == Administrator ==> ("city" in r.value <==> Truthy(At(body, "city")))
    ensures r.Done? && current.role == Administrator ==> ("status" in r.value <==> Truthy(At(body, "status")))
    ensures r.Fail? && r.status == 400 ==> (current.role == Administrator && Truthy(At(body, "status"))
             && At(body, "status") != Str("Active") && At(body, "status") != Str("Inactive"))
    ensures (current.role == Administrator && Truthy(At(body, "status")) && At(body, "status") != Str("Active")
             && At(body, "status") != Str("Inactive") && !(Truthy(At(body, "email")) && emailTaken)) ==> r == Fail(400)
  {
    r := OpenUpdates(body, emailTaken);
    if r.Fail? {
      return;
    }
    var updates := r.value;
    if Truthy(At(body, "city")) && current.role == Administrator { updates := updates["city" := body["city"]]; }
    if Truthy(At(body, "status")) && current.role == Administrator {
      if body["status"] != Str("Active") && body["status"] != Str("Inactive") {
        return Fail(400);
      }
      updates := updates["status" := body["status"]];
    }
    return Done(updates);
  }

  /**
   * Deactivation through an update writes "Inactive", but login refuses
   * only "inactive": a deactivated account with the right password still
   * logs in.
   */
  lemma DeactivatedAccountStillLogsIn(a: Account, email: JsValue, password: JsValue)
    requires a.admin.status == "Inactive" && Truthy(email) && Truthy(password)
    ensures LoginRefusal(email, password, Some(a), true).None?
  {
  }

  /**
   * `newPassword.length` in JavaScript: the length of a text or of an
   * array; undefined for any other value.
   */
  function JsLength(v: JsValue): (r: Option<nat>)
    ensures r.Some? <==> v.Str? || v.Arr?
    ensures v.Str? ==> r == Some(|v.s|)
  {
    match v
    case Str(s) => Some(|s|)
    case Arr(items) => Some(|items|)
    case _ => None
  }

  /**
   * `!newPassword || newPassword.length < 6`. `undefined < 6` is false, so a
   * truthy value without a length (a number, `true`, an object) passes.
   */
  predicate ShortPassword(v: JsValue) {
    !Truthy(v) || (JsLength(v).Some? && JsLength(v).value < 6)
  }

  /** The permission rule asks for the current password: a user always, a city administrator for its own account. */
  predicate NeedsCurrentPassword(current: Admin, t: Admin) {
    current.role == UserRole || (current.role == CityAdmin && t.id == current.id)
  }

  /**
   * `updatePassword`: 400 for a missing or short new password (before any
   * lookup), 404, 403, then 400 and 401 for the current password where one
   * is asked for; a new password that passed the length check but is not a
   * text makes the hashing throw (500).
   */
  function PasswordRefusal(current: Admin, newPassword: JsValue, target: Option<Account>, currentPassword: JsValue, matches: bool): (r: Option<int>)
    ensures ShortPassword(newPassword) ==> r == Some(400)
    ensures !ShortPassword(newPassword) && target.None? ==> r == Some(404)
    ensures !ShortPassword(newPassword) && target.Some? && UpdateRefusal(current, target.value.admin).Some? ==> r == Some(403)
    ensures (!ShortPassword(newPassword) && target.Some? && UpdateRefusal(current, target.value.admin).None?
             && NeedsCurrentPassword(current, target.value.admin) && !Truthy(currentPassword)) ==> r == Some(400)
    ensures (!ShortPassword(newPassword) && target.Some? && UpdateRefusal(current, target.value.admin).None?
             && NeedsCurrentPassword(current, target.value.admin) && Truthy(currentPassword) && !matches) ==> r == Some(401)
    ensures (!ShortPassword(newPassword) && !newPassword.Str? && target.Some? && UpdateRefusal(current, target.value.admin).None?
             && (NeedsCurrentPassword(current, target.value.admin) ==> Truthy(currentPassword) && matches)) ==> r == Some(500)
    ensures r.None? <==> (!ShortPassword(newPassword) && newPassword.Str? && target.Some?
                          && UpdateRefusal(current, target.value.admin).None?
                          && (NeedsCurrentPassword(current, target.value.admin) ==> Truthy(currentPassword) && matches))
    ensures r.Some? ==> r.value in {400, 401, 403, 404, 500}
  {
    if ShortPassword(newPassword) then Some(400)
    else if target.None? then Some(404)
    else
      var t := target.value.admin;
      var checked :=
        if current.role == CityAdmin then
          if t.role != UserRole || t.city != current.city then Some(403)
          else if t.id == current.id then
            if !Truthy(currentPassword) then Some(400) else if !matches then Some(401) else None
          else None
        else if current.role == UserRole then
          if t.id != current.id then Some(403)
          else if !Truthy(currentPassword) then Some(400)
          else if !matches then Some(401)
          else None
        else None;
      if checked.Some? then checked
      else if !newPassword.Str? then Some(500)
      else None
  }

  /**
   * A numeric new password passes the length check (its `length` is
   * undefined) and is refused only when hashing throws, after the lookup
   * and the permission rule.
   */
  lemma NumericPasswordReachesHashing(current: Admin, target: Account)
    requires current.role == Administrator
    ensures !ShortPassword(Num(1234567))
    ensures PasswordRefusal(current, Num(1234567), Some(target), Undefined, false) == Some(500)
    ensures PasswordRefusal(current, Num(1234567), None, Undefined, false) == Some(404)
  {
  }

  /**
   * The city administrator's own-password branch cannot be reached: a
   * target that passes the city rule has the user role, so it is never the
   * city administrator's own account; a city administrator changes any
   * permitted password without the current one.
   */
  lemma CityAdminNeverAskedForCurrentPassword(current: Admin, newPassword: JsValue, target: Account, matches: bool)
    requires current.role == CityAdmin && newPassword.Str? && |newPassword.s| >= 6
    requires target.admin.id == current.id ==> target.admin.role == current.role
    requires target.admin.role == UserRole && target.admin.city == current.city
    ensures PasswordRefusal(current, newPassword, Some(target), Undefined, matches).None?
  {
  }

  // ---------------------------------------------------------------- listing, lookup, deletion

  /** The `where` of `getAllAdmins`: a constraint on each of role, city, status and id, or none. */
  datatype Scope = Scope(role: Option<string>, city: Option<Option<string>>, status: Option<string>, id: Option<string>)

  /** An account matches a scope. */
  predicate InScope(s: Scope, a: Admin) {
    (s.role.Some? ==> a.role == s.role.value)
    && (s.city.Some? ==> a.city == s.city.value)
    && (s.status.Some? ==> a.status == s.status.value)
    && (s.id.Some? ==> a.id == s.id.value)
  }

  /** A query value used as a filter when it is non-empty. */
  function Given(v: Option<string>): Option<string> {
    if v.Some? && v.value != "" then v else None
  }

  /** `getAllAdmins` scoping: free filters for an administrator, own-city users for a city administrator, oneself for a user. */
  function ListScope(current: Admin, role: Option<string>, city: Option<string>, status: Option<string>): (r: Outcome<Scope>)
    ensures current.role == Administrator ==> r.Done? && forall a :: InScope(r.value, a) <==>
      (Given(role).Some? ==> a.role == Given(role).value) && (Given(city).Some? ==> a.city == Given(city))
      && (Given(status).Some? ==> a.status == Given(status).value)
    ensures current.role == CityAdmin ==> r.Done? && forall a :: InScope(r.value, a) <==> a.role == UserRole && a.city == current.city
    ensures current.role == UserRole ==> r.Done? && forall a :: InScope(r.value, a) <==> a.id == current.id
    ensures r.Fail? <==> current.role != Administrator && current.role != CityAdmin && current.role != UserRole
    ensures r.Fail? ==> r.status == 403
  {
    if current.role == Administrator then
      Done(Scope(Given(role), if Given(city).Some? then Some(Given(city)) else None, Given(status), None))
    else if current.role == CityAdmin then Done(Scope(Some(UserRole), Some(current.city), None, None))
    else if current.role == UserRole then Done(Scope(None, None, None, Some(current.id)))
    else Fail(403)
  }

  /** `getAdminById`: a city administrator sees itself and users of its city; a user only itself. */
  function ViewRefusal(current: Admin, target: Option<Admin>): (r: Option<int>)
    ensures target.None? ==> r == Some(404)
    ensures target.Some? && current.role == CityAdmin ==>
      (r.None? <==> target.value.id == current.id || (target.value.role == UserRole && target.value.city == current.city))
    ensures target.Some? && current.role == UserRole ==> (r.None? <==> target.value.id == current.id)
    ensures target.Some? && current.role == Administrator ==> r.None?
    ensures target.Some? && current.role != Administrator && current.role != CityAdmin && current.role != UserRole ==> r.None?
    ensures r.Some? && target.Some? ==> r == Some(403)
  {
    if target.None? then Some(404)
    else
      var t := target.value;
      if current.role == CityAdmin && t.id != current.id && (t.role != UserRole || t.city != current.city) then Some(403)
      else if current.role == UserRole && t.id != current.id then Some(403)
      else None
  }

  /** `deleteAdmin`: 403 unless an administrator asks, 404 for an unknown target, 400 for the last administrator. */
  function DeleteRefusal(current: Admin, targetId: string, accounts: map<string, Account>): (r: Option<int>)
    ensures current.role != Administrator ==> r == Some(403)
    ensures current.role == Administrator && targetId !in accounts ==> r == Some(404)
    ensures (current.role == Administrator && targetId in accounts && accounts[targetId].admin.role == Administrator
             && |AdministratorIds(accounts)| <= 1) ==> r == Some(400)
    ensures r.None? <==> (current.role == Administrator && targetId in accounts
                          && (accounts[targetId].admin.role == Administrator ==> |AdministratorIds(accounts)| > 1))
  {
    if current.role != Administrator then Some(403)
    else if targetId !in accounts then Some(404)
    else if accounts[targetId].admin.role == Administrator && |AdministratorIds(accounts)| <= 1 then Some(400)
    else None
  }

  /** A set with two or more elements keeps one after any single removal. */
  lemma RemoveOneOfMany(s: set<string>, x: string)
    requires |s| > 1
    ensures s - {x} != {}
  {
    if x in s {
      assert |s - {x}| == |s| - 1;
    } else {
      assert s - {x} == s;
    }
  }

  /** The accounts after an allowed deletion still hold an administrator when they held one before. */
  lemma DeletionKeepsAnAdministrator(current: Admin, targetId: string, accounts: map<string, Account>)
    requires AdministratorIds(accounts) != {}
    requires DeleteRefusal(current, targetId, accounts).None?
    ensures AdministratorIds(accounts - {targetId}) != {}
  {
    var before := AdministratorIds(accounts);
    var after := AdministratorIds(accounts - {targetId});
    assert after == before - {targetId};
    if accounts[targetId].admin.role == Administrator {
      RemoveOneOfMany(before, targetId);
    } else {
      assert targetId !in before;
    }
  }

  /** The account table the handlers read and write. */
  class AdminTable {
    var accounts: map<string, Account>

    /** There is an administrator: once the first signs up, the handlers never remove the last. */
    predicate HasAdministrator()
      reads this
    {
      AdministratorIds(accounts) != {}
    }

    constructor ()
      ensures accounts == map[]
    {
      accounts := map[];
    }

    /** `adminSignup`: stores the new account under `newId` unless refused. */
    method Signup(b: NewAccount, newId: string, hash: string -> string) returns (status: int)
      requires newId !in accounts
      modifies this
      ensures status == 201 <==> SignupRefusal(b, old(accounts)).None?
      ensures status != 201 ==> status == SignupRefusal(b, old(accounts)).value && accounts == old(accounts)
      ensures status == 201 ==> accounts == old(accounts)[newId := NewRecord(newId, b, hash)]
      ensures old(HasAdministrator()) ==> HasAdministrator()
    {
      var refusal := SignupRefusal(b, accounts);
      if refusal.Some? {
        return refusal.value;
      }
      ghost var before := AdministratorIds(accounts);
      accounts := accounts[newId := NewRecord(newId, b, hash)];
      assert before <= AdministratorIds(accounts);
      return 201;
    }

    /** `deleteAdmin`: removes the target unless refused; never removes the last administrator. */
    method Delete(current: Admin, targetId: string) returns (status: int)
      modifies this
      ensures status == 200 <==> DeleteRefusal(current, targetId, old(accounts)).None?
      ensures status == 200 ==> accounts == old(accounts) - {targetId}
      ensures status != 200 ==> accounts == old(accounts)
      ensures old(HasAdministrator()) ==> HasAdministrator()
    {
      var refusal := DeleteRefusal(current, targetId, accounts);
      if refusal.Some? {
        return refusal.value;
      }
      if HasAdministrator() {
        DeletionKeepsAnAdministrator(current, targetId, accounts);
      }
      accounts := accounts - {targetId};
      return 200;
    }
  }
}
