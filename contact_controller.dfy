/**
 * The contact handlers: `toEmptyString`, the listing filter, the per-record
 * access rule, assignment on creation, the case-insensitive city rule of
 * bulk assignment, and the selection of `deleteAllContacts`.
 */
module ContactController {
  import opened Wrappers
  import opened Strings
  import opened Js
  import opened Query
  import opened Accounts
  import opened CustomerController

  /** A contact row: the columns the rules branch on and the text columns the filters search. */
  datatype Contact = Contact(id: string, AssignToId: Option<string>, City: Option<string>, columns: Row)

  // ---------------------------------------------------------------- toEmptyString

  /** `toEmptyString(val)`: every falsy value becomes "", anything else is kept. */
  function ToEmptyString(v: JsValue): (r: JsValue)
    ensures Truthy(r) || r == Str("")
    ensures Truthy(v) ==> r == v
  {
    if !Truthy(v) then Str("") else v
  }

  /** Applying `toEmptyString` twice is applying it once, and it only ever changes falsy values. */
  lemma ToEmptyStringIdempotent(v: JsValue)
    ensures ToEmptyString(ToEmptyString(v)) == ToEmptyString(v)
    ensures ToEmptyString(v) != v ==> !Truthy(v) && v != Str("")
  {
  }

  // ---------------------------------------------------------------- listing

  /** Query-string parameter and the column its `contains` filter searches, in the order they are pushed. */
  const ContactFilterColumns: seq<(string, string)> := [
    ("Campaign", "Campaign"), ("ContactType", "ContactType"), ("City", "City"), ("Location", "Location")]

  /** The five columns a contact Keyword searches. */
  const ContactKeywordFields: seq<string> := ["Name", "CompanyName", "Notes", "Email", "ContactNo"]

  /** The keyword clause: for a non-empty Keyword, its trimmed text in one of the five columns. */
  function ContactKeywordClause(q: map<string, string>): (r: seq<Clause>)
    ensures !Given(q, "Keyword") ==> r == []
    ensures Given(q, "Keyword") ==> r == [AnyFieldContains(ContactKeywordFields, Trim(q["Keyword"]))]
  {
    if Given(q, "Keyword") then [AnyFieldContains(ContactKeywordFields, Trim(q["Keyword"]))] else []
  }

  /** A row passes the role clause, every supplied filter column and the keyword. */
  predicate ContactMatches(role: seq<Clause>, q: map<string, string>, row: Row) {
    && HoldsAll(role, row)
    && MatchesColumns(q, ContactFilterColumns, row)
    && (Given(q, "Keyword") ==> FoundIn(ContactKeywordFields, Trim(q["Keyword"]), row))
  }

  /** The pushed clauses hold iff the row matches. */
  lemma ContactClausesMeaning(role: seq<Clause>, q: map<string, string>, row: Row)
    ensures HoldsAll(role + ColumnClauses(q, ContactFilterColumns) + ContactKeywordClause(q), row) <==> ContactMatches(role, q, row)
  {
    HoldsAllConcat(role, ColumnClauses(q, ContactFilterColumns), row);
    HoldsAllConcat(role + ColumnClauses(q, ContactFilterColumns), ContactKeywordClause(q), row);
    ColumnClausesMeaning(q, ContactFilterColumns, row);
    if Given(q, "Keyword") {
      var k := AnyFieldContains(ContactKeywordFields, Trim(q["Keyword"]));
      AnyFieldContainsMeaning(ContactKeywordFields, Trim(q["Keyword"]), row);
      assert HoldsAll([k], row) <==> Holds(k, row) by { assert [k][0] == k; }
    }
  }

  /**
   * `getContact`'s `AND` list in push order: the role clause, one `contains`
   * per supplied filter column, and the keyword clause. A city
   * administrator without a city fails (a `contains` of null).
   */
  method GetContactWhere(admin: Admin, q: map<string, string>) returns (r: Outcome<seq<Clause>>)
    ensures r.Fail? <==> admin.role == CityAdmin && admin.city.None?
    ensures r.Done? ==> forall row :: HoldsAll(r.value, row) <==> ContactMatches(RoleClauses(admin).value, q, row)
  {
    var and: seq<Clause> := [];
    var role := RoleClauses(admin);
    if role.Fail? {
      return Fail(500);
    }
    and := and + role.value;
    assert and == role.value;
    and := and + ColumnClauses(q, ContactFilterColumns);
    and := and + ContactKeywordClause(q);
    forall row
      ensures HoldsAll(and, row) <==> ContactMatches(role.value, q, row)
    {
      ContactClausesMeaning(role.value, q, row);
    }
    r := Done(and);
  }

  /** The role words for which the User filter also compares the account role. */
  const RoleWords: seq<string> := ["admin", "city_admin", "user"]

  /**
   * The account search of the User filter: name, e-mail or city contain the
   * text, or, when the lower-cased text is one of the role words, the role
   * equals the text as given.
   */
  function UserMatch(user: string): (r: Clause)
    ensures r.AnyOf?
    ensures |r.clauses| == 4 <==> ToLower(user) in RoleWords
    ensures |r.clauses| == 4 ==> r.clauses[3] == Equals("role", user)
  {
    AnyOf([ContainsText("name", user), ContainsText("email", user), ContainsText("city", user)]
          + (if ToLower(user) in RoleWords then [Equals("role", user)] else []))
  }

  /** The role comparison is case-sensitive: "User" adds a role clause, but it matches no account whose role is "user". */
  lemma CapitalisedRoleWordMatchesNoRole(account: Row)
    requires "role" in account && account["role"] == UserRole
    ensures |UserMatch("User").clauses| == 4
    ensures !Holds(UserMatch("User").clauses[3], account)
  {
    assert ToLower("User") == "user";
  }

  /** The contacts assigned to one of the matched accounts, in order; unassigned contacts never pass. */
  function AssignedContacts(cs: seq<Contact>, allowedIds: seq<string>): (r: seq<Contact>)
    ensures |r| <= |cs|
    ensures forall c :: c in r <==> c in cs && c.AssignToId.Some? && c.AssignToId.value != "" && c.AssignToId.value in allowedIds
  {
    if cs == [] then []
    else
      var c := cs[0];
      (if c.AssignToId.Some? && c.AssignToId.value != "" && c.AssignToId.value in allowedIds then [c] else [])
      + AssignedContacts(cs[1..], allowedIds)
  }

  /** Filtering a concatenation filters each part and keeps them in order. */
  lemma {:induction false} AssignedContactsConcat(a: seq<Contact>, b: seq<Contact>, allowedIds: seq<string>)
    ensures AssignedContacts(a + b, allowedIds) == AssignedContacts(a, allowedIds) + AssignedContacts(b, allowedIds)
  {
    if a == [] {
      assert a + b == b;
    } else {
      assert (a + b)[0] == a[0];
      assert (a + b)[1..] == a[1..] + b;
      AssignedContactsConcat(a[1..], b, allowedIds);
    }
  }

  /** One contact passes exactly when it is assigned to a matched account. */
  lemma AssignedContactsOne(c: Contact, allowedIds: seq<string>)
    ensures AssignedContacts([c], allowedIds)
         == if c.AssignToId.Some? && c.AssignToId.value != "" && c.AssignToId.value in allowedIds then [c] else []
  {
    assert [c][1..] == [];
  }

  /** The listing after the database read: `take: Limit` first, then the User filter, so fewer than Limit rows may come back. */
  function ListContacts(ordered: seq<Contact>, limit: Option<nat>, allowedIds: Option<seq<string>>): (r: seq<Contact>)
    ensures limit.Some? ==> |r| <= limit.value
    ensures allowedIds.None? ==> r == (if limit.Some? then Take(ordered, limit.value) else ordered)
    ensures allowedIds.Some? ==> forall c :: c in r ==> c in ordered && c.AssignToId.Some? && c.AssignToId.value in allowedIds.value
    ensures allowedIds.Some? ==> forall c :: c in r <==>
      (c in (if limit.Some? then Take(ordered, limit.value) else ordered)
       && c.AssignToId.Some? && c.AssignToId.value != "" && c.AssignToId.value in allowedIds.value)
  {
    var read := if limit.Some? then Take(ordered, limit.value) else ordered;
    if allowedIds.Some? then AssignedContacts(read, allowedIds.value) else read
  }

  // ---------------------------------------------------------------- single-record access

  /** `getContactById`, `updateContact`, `deleteContactbyId`: 404 when absent, then the user and city administrator checks. */
  function OpenContact(admin: Admin, found: Option<Contact>): (r: Outcome<Contact>)
    ensures found.None? ==> r == Fail(404)
    ensures found.Some? ==> (r == Done(found.value) <==> MayTouchRecord(admin, found.value.AssignToId, found.value.City))
    ensures found.Some? && r.Fail? ==> r.status == 403
  {
    if found.None? then Fail(404)
    else
      var refusal := RecordRefusal(admin, found.value.AssignToId, found.value.City);
      if refusal.Some? then Fail(refusal.value) else Done(found.value)
  }

  /** `createContact`: the body is stored as sent, except that a user always becomes the assignee. */
  function AssignOnCreate(admin: Admin, body: map<string, JsValue>): (r: map<string, JsValue>)
    ensures "AssignToId" in r
    ensures admin.role == UserRole ==> r["AssignToId"] == Str(admin.id)
    ensures admin.role != UserRole ==> r["AssignToId"] == Lookup(body, "AssignToId")
    ensures forall k :: k != "AssignToId" ==> (k in r <==> k in body) && (k in r ==> r[k] == body[k])
  {
    body["AssignToId" := if admin.role == UserRole then Str(admin.id) else Lookup(body, "AssignToId")]
  }

  // ---------------------------------------------------------------- assignment

  /** `(city || "").toLowerCase()`. */
  function CityKey(city: Option<string>): string {
    if city.Some? then ToLower(city.value) else ""
  }

  /** The string ids of an id list; other entries select nothing. */
  function TextIds(items: seq<JsValue>): (r: seq<string>)
    ensures forall id :: id in r <==> Str(id) in items
  {
    if items == [] then []
    else (if items[0].Str? then [items[0].s] else []) + TextIds(items[1..])
  }

  /**
   * `assignContact`: 400 without a non-empty id array and an assignee; 404
   * for an unknown assignee or when no listed contact exists; for a city
   * administrator 403 unless every found contact and the assignee share
   * its city ignoring case (a missing city counts as ""); 403 for a user.
   * On success the listed ids are assigned.
   */
  function AssignContact(admin: Admin, contactIds: JsValue, assignToId: JsValue, assignee: Option<Admin>,
                         found: seq<Contact>): (r: Outcome<seq<string>>)
    ensures r.Done? ==> contactIds.Arr? && contactIds.items != [] && Truthy(assignToId) && assignee.Some? && found != []
    ensures r.Done? ==> admin.role != UserRole && r.value == TextIds(contactIds.items)
    ensures r.Done? && admin.role == CityAdmin ==>
      (forall c :: c in found ==> CityKey(c.City) == CityKey(admin.city)) && CityKey(assignee.value.city) == CityKey(admin.city)
    ensures (contactIds.Arr? && contactIds.items != [] && Truthy(assignToId) && assignee.Some? && found != []
             && admin.role != UserRole && admin.role != CityAdmin) ==> r.Done?
    ensures admin.role == UserRole ==> r.Fail?
    ensures !contactIds.Arr? || contactIds.items == [] || !Truthy(assignToId) ==> r == Fail(400)
    ensures contactIds.Arr? && contactIds.items != [] && Truthy(assignToId) && assignee.None? ==> r == Fail(404)
    ensures (contactIds.Arr? && contactIds.items != [] && Truthy(assignToId) && assignee.Some?
             && found == []) ==> r == Fail(404)
    ensures r.Done? <==> (contactIds.Arr? && contactIds.items != [] && Truthy(assignToId) && assignee.Some? && found != []
                          && admin.role != UserRole
                          && (admin.role == CityAdmin ==> (forall c :: c in found ==> CityKey(c.City) == CityKey(admin.city))
                                                          && CityKey(assignee.value.city) == CityKey(admin.city)))
    ensures r.Fail? ==> r.status in {400, 403, 404}
    ensures (r.Fail? && contactIds.Arr? && contactIds.items != [] && Truthy(assignToId) && assignee.Some?
             && found != []) ==> r.status == 403
  {
    if !contactIds.Arr? || contactIds.items == [] || !Truthy(assignToId) then Fail(400)
    else if assignee.None? then Fail(404)
    else if found == [] then Fail(404)
    else if admin.role == CityAdmin && exists c :: c in found && CityKey(c.City) != CityKey(admin.city) then Fail(403)
    else if admin.role == CityAdmin && CityKey(assignee.value.city) != CityKey(admin.city) then Fail(403)
    else if admin.role == UserRole then Fail(403)
    else Done(TextIds(contactIds.items))
  }

  /**
   * Assignment compares cities ignoring case while opening a record compares
   * them exactly: the administrator of "Pune" may assign a contact in "PUNE"
   * but may not open it.
   */
  lemma AssignIgnoresCaseOpenDoesNot(admin: Admin, c: Contact, assignee: Admin)
    requires admin.role == CityAdmin && admin.city == Some("Pune") && c.City == Some("PUNE")
    requires assignee.city == Some("pune")
    ensures AssignContact(admin, Arr([Str(c.id)]), Str(assignee.id + "x"), Some(assignee), [c]).Done?
    ensures OpenContact(admin, Some(c)) == Fail(403)
  {
    assert ToLower("PUNE") == "pune" && ToLower("Pune") == "pune";
    assert CityKey(c.City) == CityKey(admin.city);
  }

  /**
   * `bulkAssignCityContacts`: only a city administrator, 404 for an unknown
   * assignee, 403 unless the assignee's city matches ignoring case; the
   * contacts whose City equals the administrator's exactly are reassigned.
   */
  function BulkAssignCity(admin: Admin, assignee: Option<Admin>, contacts: seq<Contact>): (r: Outcome<seq<string>>)
    ensures r.Done? <==> admin.role == CityAdmin && assignee.Some? && CityKey(assignee.value.city) == CityKey(admin.city)
    ensures admin.role != CityAdmin ==> r == Fail(403)
    ensures admin.role == CityAdmin && assignee.None? ==> r == Fail(404)
    ensures (admin.role == CityAdmin && assignee.Some?
             && CityKey(assignee.value.city) != CityKey(admin.city)) ==> r == Fail(403)
    ensures r.Done? ==> forall c :: c in contacts ==> (c.id in r.value <== c.City == admin.city)
    ensures r.Done? ==> forall id :: id in r.value ==> exists c :: c in contacts && c.id == id && c.City == admin.city
  {
    if admin.role != CityAdmin then Fail(403)
    else if assignee.None? then Fail(404)
    else if CityKey(assignee.value.city) != CityKey(admin.city) then Fail(403)
    else Done(InCity(contacts, admin.city))
  }

  /** The ids of the contacts whose City equals `city` exactly, in order. */
  function InCity(contacts: seq<Contact>, city: Option<string>): (r: seq<string>)
    ensures forall c :: c in contacts && c.City == city ==> c.id in r
    ensures forall id :: id in r ==> exists c :: c in contacts && c.id == id && c.City == city
  {
    if contacts == [] then []
    else
      var rest := InCity(contacts[1..], city);
      assert forall c :: c in contacts[1..] ==> c in contacts;
      (if contacts[0].City == city then [contacts[0].id] else []) + rest
  }

  // ---------------------------------------------------------------- delete all

  /** The ids of the stored contacts whose id is listed, in store order. */
  function Listed(stored: seq<Contact>, requested: seq<string>): (r: seq<string>)
    ensures forall id :: id in r <==> id in requested && exists c :: c in stored && c.id == id
  {
    if stored == [] then []
    else
      var rest := Listed(stored[1..], requested);
      assert forall c :: c in stored[1..] ==> c in stored;
      assert forall c :: c in stored ==> c == stored[0] || c in stored[1..];
      (if stored[0].id in requested then [stored[0].id] else []) + rest
  }

  /** The ids of every stored contact, in store order. */
  function AllIds(stored: seq<Contact>): (r: seq<string>)
    ensures |r| == |stored| && forall i :: 0 <= i < |stored| ==> r[i] == stored[i].id
  {
    seq(|stored|, i requires 0 <= i < |stored| => stored[i].id)
  }

  /** The contacts left after deleting the given ids. */
  function Remaining(stored: seq<Contact>, deleted: seq<string>): (r: seq<Contact>)
    ensures forall c :: c in r <==> c in stored && c.id !in deleted
  {
    if stored == [] then []
    else
      var rest := Remaining(stored[1..], deleted);
      assert forall c :: c in stored ==> c == stored[0] || c in stored[1..];
      (if stored[0].id !in deleted then [stored[0]] else []) + rest
  }

  /**
   * `deleteAllContacts`: only an administrator. A non-empty id array
   * deletes the stored contacts it lists (404 when none exists); anything
   * else deletes every contact (404 when there is none). The ids reported
   * are exactly the ids deleted.
   */
  method DeleteAllContacts(admin: Admin, contactIds: JsValue, stored: seq<Contact>)
    returns (r: Outcome<seq<string>>, remaining: seq<Contact>)
    ensures admin.role != Administrator ==> r == Fail(403)
    ensures r.Fail? ==> remaining == stored && (r.status == 403 || r.status == 404)
    ensures r.Done? ==> r.value != [] && forall c :: c in remaining <==> c in stored && c.id !in r.value
    ensures r.Done? && contactIds.Arr? && contactIds.items != [] ==>
      forall id :: id in r.value <==> Str(id) in contactIds.items && exists c :: c in stored && c.id == id
    ensures r.Done? && !(contactIds.Arr? && contactIds.items != []) ==>
      forall id :: id in r.value <==> exists c :: c in stored && c.id == id
    ensures admin.role == Administrator && !(contactIds.Arr? && contactIds.items != []) ==> (r.Fail? <==> stored == [])
    ensures (admin.role == Administrator && contactIds.Arr? && contactIds.items != []) ==>
      (r.Fail? <==> Listed(stored, TextIds(contactIds.items)) == [])
  {
    remaining := stored;
    if admin.role != Administrator {
      return Fail(403), remaining;
    }
    var targetContactIds: seq<string> := [];
    if contactIds.Arr? && contactIds.items != [] {
      targetContactIds := Listed(stored, TextIds(contactIds.items));
      if targetContactIds == [] {
        return Fail(404), remaining;
      }
    } else {
      if stored == [] {
        return Fail(404), remaining;
      }
      targetContactIds := AllIds(stored);
      assert stored[0].id == targetContactIds[0];
      forall id | exists c :: c in stored && c.id == id
        ensures id in targetContactIds
      {
        var c :| c in stored && c.id == id;
        var i :| 0 <= i < |stored| && stored[i] == c;
        assert targetContactIds[i] == id;
      }
    }
    remaining := Remaining(stored, targetContactIds);
    r := Done(targetContactIds);
  }
}
