/** Administrator accounts and the three roles every access rule is written against. */
module Accounts {
  import opened Wrappers

  const Administrator: string := "administrator"
  const CityAdmin: string := "city_admin"
  const UserRole: string := "user"

  /** An account row; `role` is free text because the handlers also meet roles outside the three. */
  datatype Admin = Admin(id: string, name: string, email: string, role: string, city: Option<string>, status: string)

  /**
   * The per-record rule of the customer and contact handlers: a user may
   * touch only records assigned to them, a city administrator only records
   * whose City equals theirs exactly; other roles are not restricted.
   */
  predicate MayTouchRecord(admin: Admin, assignToId: Option<string>, city: Option<string>) {
    (admin.role == UserRole ==> assignToId == Some(admin.id))
    && (admin.role == CityAdmin ==> city == admin.city)
  }

  /** The two role checks in source order: `Some(403)` when either refuses. */
  function RecordRefusal(admin: Admin, assignToId: Option<string>, city: Option<string>): (r: Option<int>)
    ensures r == None <==> MayTouchRecord(admin, assignToId, city)
    ensures r.Some? ==> r.value == 403
  {
    if admin.role == UserRole && assignToId != Some(admin.id) then Some(403)
    else if admin.role == CityAdmin && city != admin.city then Some(403)
    else None
  }
}
