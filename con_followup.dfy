/**
 * The contact follow-up handlers: the listing's filter on the follow-up and
 * on the contact it belongs to, the relation mapping of an update, and the
 * two response shapes.
 */
module ContactFollowups {
  import opened Wrappers
  import opened Strings
  import opened Js
  import opened Query
  import opened Accounts
  import opened CustomerController
  import opened ContactController
  import opened Paging
  import opened CustomerFollowups

  /** The five contact columns a follow-up keyword searches. */
  const ContactKeywordColumns: seq<string> := ["Name", "Email", "CompanyName", "City", "Location"]

  /** `getConFollowups`' contact filter object: one optional clause per key it may assign. */
  datatype ContactFilterObject = ContactFilterObject(
    Campaign: Option<Clause>, ContactType: Option<Clause>, City: Option<Clause>, Location: Option<Clause>,
    AssignTo: Option<Clause>, OR: Option<Clause>)

  /** The clauses of the object in key order. */
  function ContactClauses(f: ContactFilterObject): seq<Clause> {
    Somes([f.Campaign, f.ContactType, f.City, f.Location, f.AssignTo, f.OR])
  }

  /**
   * `getConFollowups`' contact filter in source order: the column filters
   * (PropertyType searching ContactType), the assignee-name filter, the
   * user's own id overriding it, and the keyword.
   */
  method ContactFilter(admin: Admin, q: map<string, string>) returns (f: ContactFilterObject)
    ensures f.Campaign == ColumnEntry(q, "Campaign", "Campaign")
    ensures f.ContactType == ColumnEntry(q, "ContactType", "PropertyType")
    ensures f.City == ColumnEntry(q, "City", "City")
    ensures f.Location == ColumnEntry(q, "Location", "Location")
    ensures admin.role == UserRole ==> f.AssignTo == Some(Equals("AssignTo.id", admin.id))
    ensures admin.role != UserRole ==> f.AssignTo == ColumnEntry(q, "AssignTo.name", "User")
    ensures f.OR.Some? <==> Given(q, "keyword")
    ensures f.OR.Some? ==> f.OR.value == AnyFieldContains(ContactKeywordColumns, Param(q, "keyword"))
  {
    f := ContactFilterObject(None, None, None, None, None, None);
    f := f.(Campaign := ColumnEntry(q, "Campaign", "Campaign"));
    f := f.(ContactType := ColumnEntry(q, "ContactType", "PropertyType"));
    f := f.(City := ColumnEntry(q, "City", "City"));
    f := f.(Location := ColumnEntry(q, "Location", "Location"));
    f := f.(AssignTo := ColumnEntry(q, "AssignTo.name", "User"));
    if admin.role == UserRole { f := f.(AssignTo := Some(Equals("AssignTo.id", admin.id))); }
    if Given(q, "keyword") { f := f.(OR := Some(AnyFieldContains(ContactKeywordColumns, Param(q, "keyword")))); }
  }

  /** A contact passing the filter object satisfies its assignee and keyword clauses. */
  lemma PassingContact(f: ContactFilterObject, contact: Row)
    requires HoldsAll(ContactClauses(f), contact)
    ensures f.AssignTo.Some? ==> Holds(f.AssignTo.value, contact)
    ensures f.OR.Some? ==> Holds(f.OR.value, contact)
  {
    var keys := [f.Campaign, f.ContactType, f.City, f.Location, f.AssignTo, f.OR];
    SomesMeaning(keys, contact);
    assert keys[4] == f.AssignTo && keys[5] == f.OR;
  }

  /**
   * What `getConFollowups` asks of a follow-up's contact: every supplied
   * column parameter (PropertyType searching ContactType), for a user the
   * own id and otherwise the User name, and the keyword in one of the five
   * columns.
   */
  predicate ContactMatches(admin: Admin, q: map<string, string>, contact: Row) {
    && ColumnHolds(q, "Campaign", "Campaign", contact)
    && ColumnHolds(q, "ContactType", "PropertyType", contact)
    && ColumnHolds(q, "City", "City", contact)
    && ColumnHolds(q, "Location", "Location", contact)
    && (admin.role == UserRole ==> "AssignTo.id" in contact && contact["AssignTo.id"] == admin.id)
    && (admin.role != UserRole ==> ColumnHolds(q, "AssignTo.name", "User", contact))
    && (Given(q, "keyword") ==> FoundIn(ContactKeywordColumns, Param(q, "keyword"), contact))
  }

  /**
   * The whole where: StatusType (trimmed) on the follow-up and the contact
   * filter when it has any key. A follow-up passes exactly when its
   * StatusType matches a given one and its contact meets every supplied
   * filter; so for a user only follow-ups of contacts assigned to them pass.
   */
  method ConFollowupsWhere(admin: Admin, q: map<string, string>) returns (w: FollowupWhere)
    ensures w.status.Some? <==> Given(q, "StatusType")
    ensures w.status.Some? ==> w.status.value == Param(q, "StatusType")
    ensures admin.role == UserRole ==> w.parent.Some?
    ensures forall status, contact :: FollowupPasses(w, status, contact) <==>
      (Given(q, "StatusType") ==> status == Some(Param(q, "StatusType"))) && ContactMatches(admin, q, contact)
  {
    var f := ContactFilter(admin, q);
    var status := if Given(q, "StatusType") then Some(Param(q, "StatusType")) else None;
    w := FollowupWhere(status, Attached(ContactClauses(f)));
    if admin.role == UserRole {
      ContactAssigneeKeyAttaches(f);
    }
    forall contact
      ensures HoldsAll(ContactClauses(f), contact) <==> ContactMatches(admin, q, contact)
    {
      ContactObjectMeaning(admin, q, f, contact);
    }
  }

  /** An object with an assignee key has a clause, so it is attached. */
  lemma ContactAssigneeKeyAttaches(f: ContactFilterObject)
    requires f.AssignTo.Some?
    ensures ContactClauses(f) != []
  {
    var keys := [f.Campaign, f.ContactType, f.City, f.Location, f.AssignTo, f.OR];
    assert keys[4].Some?;
  }

  /** A contact passes the filter object built for `admin` and `q` exactly when it matches every supplied filter. */
  lemma ContactObjectMeaning(admin: Admin, q: map<string, string>, f: ContactFilterObject, contact: Row)
    requires f.Campaign == ColumnEntry(q, "Campaign", "Campaign")
    requires f.ContactType == ColumnEntry(q, "ContactType", "PropertyType")
    requires f.City == ColumnEntry(q, "City", "City")
    requires f.Location == ColumnEntry(q, "Location", "Location")
    requires admin.role == UserRole ==> f.AssignTo == Some(Equals("AssignTo.id", admin.id))
    requires admin.role != UserRole ==> f.AssignTo == ColumnEntry(q, "AssignTo.name", "User")
    requires f.OR.Some? <==> Given(q, "keyword")
    requires f.OR.Some? ==> f.OR.value == AnyFieldContains(ContactKeywordColumns, Param(q, "keyword"))
    ensures HoldsAll(ContactClauses(f), contact) <==> ContactMatches(admin, q, contact)
  {
    SixKeys(f.Campaign, f.ContactType, f.City, f.Location, f.AssignTo, f.OR, contact);
    ColumnEntryMeaning(q, "Campaign", "Campaign", contact);
    ColumnEntryMeaning(q, "ContactType", "PropertyType", contact);
    ColumnEntryMeaning(q, "City", "City", contact);
    ColumnEntryMeaning(q, "Location", "Location", contact);
    ColumnEntryMeaning(q, "AssignTo.name", "User", contact);
    if Given(q, "keyword") {
      AnyFieldContainsMeaning(ContactKeywordColumns, Param(q, "keyword"), contact);
    }
  }

  /** The clauses of six optional keys hold exactly when each key does. */
  lemma SixKeys(a: Option<Clause>, b: Option<Clause>, c: Option<Clause>, d: Option<Clause>,
                e: Option<Clause>, g: Option<Clause>, row: Row)
    ensures HoldsAll(Somes([a, b, c, d, e, g]), row) <==>
      KeyHolds(a, row) && KeyHolds(b, row) && KeyHolds(c, row) && KeyHolds(d, row)
      && KeyHolds(e, row) && KeyHolds(g, row)
  {
    var k5 := [g];
    var k4 := [e] + k5;
    var k3 := [d] + k4;
    var k2 := [c] + k3;
    var k1 := [b] + k2;
    var k0 := [a] + k1;
    assert k0 == [a, b, c, d, e, g];
    SomesCons(g, [], row);
    assert [g] + [] == k5;
    SomesCons(e, k5, row);
    SomesCons(d, k4, row);
    SomesCons(c, k3, row);
    SomesCons(b, k2, row);
    SomesCons(a, k1, row);
    assert Somes([]) == [];
  }

  // ---------------------------------------------------------------- update and responses

  /** The relation write for a contact id: `{ connect: { id } }`. */
  function Connect(id: JsValue): JsValue {
    Obj([("connect", Obj([("id", id)]))])
  }

  /**
   * `updateConFollowup`'s data: every other body key passes through
   * unchanged; a truthy `contact` becomes a relation connect, a falsy one is
   * dropped.
   */
  function ConFollowupUpdate(body: map<string, JsValue>): (r: map<string, JsValue>)
    ensures forall k :: k != "contact" ==> (k in r <==> k in body) && (k in r ==> r[k] == body[k])
    ensures "contact" in r <==> Truthy(Lookup(body, "contact"))
    ensures "contact" in r ==> r["contact"] == Connect(body["contact"])
  {
    var rest := body - {"contact"};
    if Truthy(Lookup(body, "contact")) then rest["contact" := Connect(body["contact"])] else rest
  }

  /** The contact columns copied into a response's nested contact, `|| ""` each. */
  const ContactTextKeys: set<string> := {
    "Campaign", "Range", "ContactNo", "Location", "ContactType", "Name", "City", "Address",
    "ContactIndustry", "ContactFunctionalArea", "ReferenceId", "Notes", "Facilities", "date",
    "Email", "CompanyName", "Website", "Status", "Qualifications"}

  /** The contact columns flattened onto the follow-up, `|| ""` each. */
  const FlatKeys: set<string> := {"Campaign", "Location", "City", "ContactType"}

  /** A follow-up's response shape: its nested contact (or null), the flattened columns and the assignee. */
  datatype ConFollowupView = ConFollowupView(contact: Option<map<string, JsValue>>, flat: map<string, JsValue>, assignTo: JsValue)

  /**
   * `transformConFollowup`: without a contact, contact and assignee are
   * null and every flattened column is ""; with one, each text column is
   * kept when truthy and "" otherwise.
   */
  function TransformConFollowup(contact: Option<map<string, JsValue>>): (r: ConFollowupView)
    ensures contact.None? <==> r.contact.None?
    ensures contact.None? ==> r.assignTo == Null && forall k :: k in r.flat ==> r.flat[k] == Str("")
    ensures forall k :: k in r.flat <==> k in FlatKeys
    ensures r.contact.Some? ==> forall k :: k in r.contact.value <==> k in ContactTextKeys
    ensures forall k :: k in r.flat ==> Truthy(r.flat[k]) || r.flat[k] == Str("")
    ensures contact.Some? ==> forall k :: k in r.flat && Truthy(Lookup(contact.value, k)) ==> r.flat[k] == contact.value[k]
    ensures contact.Some? ==> forall k :: k in r.flat && !Truthy(Lookup(contact.value, k)) ==> r.flat[k] == Str("")
    ensures contact.Some? ==> forall k :: k in r.contact.value ==>
      r.contact.value[k] == (if Truthy(Lookup(contact.value, k)) then contact.value[k] else Str(""))
    ensures contact.Some? && Truthy(Lookup(contact.value, "AssignTo")) ==> r.assignTo == contact.value["AssignTo"]
    ensures r.assignTo != Null ==> contact.Some? && Truthy(Lookup(contact.value, "AssignTo"))
  {
    var c := if contact.Some? then contact.value else map[];
    ConFollowupView(
      if contact.Some? then Some(map k | k in ContactTextKeys :: ToEmptyString(Lookup(c, k))) else None,
      map k | k in FlatKeys :: ToEmptyString(Lookup(c, k)),
      if contact.Some? && Truthy(Lookup(c, "AssignTo")) then Lookup(c, "AssignTo") else Null)
  }

  /** `transformConFollowupById`: the contact id instead of the contact, and `__v` 0. */
  function TransformConFollowupById(followup: map<string, JsValue>): (r: map<string, JsValue>)
    ensures "contact" in r && r["contact"] == Lookup(followup, "contactId")
    ensures "__v" in r && r["__v"] == Num(0)
    ensures "_id" in r && r["_id"] == Lookup(followup, "id")
  {
    map["_id" := Lookup(followup, "id"), "contact" := Lookup(followup, "contactId"),
        "StartDate" := Lookup(followup, "StartDate"), "StatusType" := Lookup(followup, "StatusType"),
        "FollowupNextDate" := Lookup(followup, "FollowupNextDate"), "Description" := Lookup(followup, "Description"),
        "createdAt" := Lookup(followup, "createdAt"), "updatedAt" := Lookup(followup, "updatedAt"),
        "__v" := Num(0)]
  }
}
