/**
 * The customer follow-up handlers: the listing's page numbers and its
 * filter on the follow-up and on the customer it belongs to, the partial
 * update, and the defaults of the response shape.
 */
module CustomerFollowups {
  import opened Wrappers
  import opened Strings
  import opened Js
  import opened Query
  import opened Accounts
  import opened CustomerController
  import opened ContactController
  import opened Paging

  /** The five customer columns a follow-up keyword searches. */
  const KeywordFields: seq<string> := ["customerName", "ContactNumber", "Email", "City", "Location"]

  /** A supplied (non-empty) parameter's trimmed text. */
  function Param(q: map<string, string>, p: string): string
    requires Given(q, p)
  {
    Trim(q[p])
  }

  /** `getFollowups`' customer filter object: one optional clause per key it may assign. */
  datatype CustomerFilterObject = CustomerFilterObject(
    Campaign: Option<Clause>, CustomerType: Option<Clause>, CustomerSubType: Option<Clause>,
    City: Option<Clause>, Location: Option<Clause>, AssignTo: Option<Clause>, OR: Option<Clause>)

  /** The clauses of the object in key order. */
  function Clauses(f: CustomerFilterObject): seq<Clause> {
    Somes([f.Campaign, f.CustomerType, f.CustomerSubType, f.City, f.Location, f.AssignTo, f.OR])
  }

  /** The `contains` of a supplied parameter's trimmed text, or no key. */
  function ColumnEntry(q: map<string, string>, column: string, p: string): (r: Option<Clause>)
    ensures r.Some? <==> Given(q, p)
    ensures r.Some? ==> r.value == ContainsText(column, Param(q, p))
  {
    if Given(q, p) then Some(ContainsText(column, Param(q, p))) else None
  }

  /**
   * `getFollowups`' customer filter, key by key in source order: the
   * column filters (PropertyType searching CustomerType), the assignee-name
   * filter, then for a user the assignee-id filter that overrides it, and
   * the keyword.
   */
  method CustomerFilter(admin: Admin, q: map<string, string>) returns (f: CustomerFilterObject)
    ensures f.Campaign == ColumnEntry(q, "Campaign", "Campaign")
    ensures f.CustomerType == ColumnEntry(q, "CustomerType", "PropertyType")
    ensures f.CustomerSubType == ColumnEntry(q, "CustomerSubType", "CustomerSubType")
    ensures f.City == ColumnEntry(q, "City", "City")
    ensures f.Location == ColumnEntry(q, "Location", "Location")
    ensures admin.role == UserRole ==> f.AssignTo == Some(Equals("AssignTo.id", admin.id))
    ensures admin.role != UserRole ==> f.AssignTo == ColumnEntry(q, "AssignTo.name", "User")
    ensures f.OR.Some? <==> Given(q, "keyword")
    ensures f.OR.Some? ==> f.OR.value == AnyFieldContains(KeywordFields, Param(q, "keyword"))
  {
    f := CustomerFilterObject(None, None, None, None, None, None, None);
    f := f.(Campaign := ColumnEntry(q, "Campaign", "Campaign"));
    f := f.(CustomerType := ColumnEntry(q, "CustomerType", "PropertyType"));
    f := f.(CustomerSubType := ColumnEntry(q, "CustomerSubType", "CustomerSubType"));
    f := f.(City := ColumnEntry(q, "City", "City"));
    f := f.(Location := ColumnEntry(q, "Location", "Location"));
    f := f.(AssignTo := ColumnEntry(q, "AssignTo.name", "User"));
    if admin.role == UserRole { f := f.(AssignTo := Some(Equals("AssignTo.id", admin.id))); }
    if Given(q, "keyword") { f := f.(OR := Some(AnyFieldContains(KeywordFields, Param(q, "keyword")))); }
  }

  /** A customer passing the filter object satisfies its assignee and keyword clauses. */
  lemma PassingCustomer(f: CustomerFilterObject, customer: Row)
    requires HoldsAll(Clauses(f), customer)
    ensures f.AssignTo.Some? ==> Holds(f.AssignTo.value, customer)
    ensures f.OR.Some? ==> Holds(f.OR.value, customer)
  {
    var keys := [f.Campaign, f.CustomerType, f.CustomerSubType, f.City, f.Location, f.AssignTo, f.OR];
    SomesMeaning(keys, customer);
    assert keys[5] == f.AssignTo && keys[6] == f.OR;
  }

  /** A supplied parameter's trimmed text occurs in the column; an unsupplied one asks nothing. */
  predicate ColumnHolds(q: map<string, string>, column: string, p: string, row: Row) {
    Given(q, p) ==> column in row && Contains(row[column], Param(q, p))
  }

  /** A column key of the filter object holds exactly when its parameter's condition does. */
  lemma ColumnEntryMeaning(q: map<string, string>, column: string, p: string, row: Row)
    ensures (ColumnEntry(q, column, p).Some? ==> Holds(ColumnEntry(q, column, p).value, row)) <==> ColumnHolds(q, column, p, row)
  {
  }

  /**
   * What `getFollowups` asks of a follow-up's customer: every supplied
   * column parameter (PropertyType searching CustomerType), for a user the
   * own id and otherwise the User name, and the keyword in one of the five
   * columns.
   */
  predicate CustomerMatches(admin: Admin, q: map<string, string>, customer: Row) {
    && ColumnHolds(q, "Campaign", "Campaign", customer)
    && ColumnHolds(q, "CustomerType", "PropertyType", customer)
    && ColumnHolds(q, "CustomerSubType", "CustomerSubType", customer)
    && ColumnHolds(q, "City", "City", customer)
    && ColumnHolds(q, "Location", "Location", customer)
    && (admin.role == UserRole ==> "AssignTo.id" in customer && customer["AssignTo.id"] == admin.id)
    && (admin.role != UserRole ==> ColumnHolds(q, "AssignTo.name", "User", customer))
    && (Given(q, "keyword") ==> FoundIn(KeywordFields, Param(q, "keyword"), customer))
  }

  /**
   * The whole where: StatusType (trimmed) on the follow-up, and the customer
   * filter when it has any key. A follow-up passes exactly when its
   * StatusType matches a given one and its customer meets every supplied
   * filter; so a user's listing passes only follow-ups of customers
   * assigned to them, whatever User name was asked for.
   */
  method FollowupsWhere(admin: Admin, q: map<string, string>) returns (w: FollowupWhere)
    ensures w.status.Some? <==> Given(q, "StatusType")
    ensures w.status.Some? ==> w.status.value == Param(q, "StatusType")
    ensures admin.role == UserRole ==> w.parent.Some?
    ensures forall status, customer :: FollowupPasses(w, status, customer) <==>
      (Given(q, "StatusType") ==> status == Some(Param(q, "StatusType"))) && CustomerMatches(admin, q, customer)
  {
    var f := CustomerFilter(admin, q);
    var status := if Given(q, "StatusType") then Some(Param(q, "StatusType")) else None;
    w := FollowupWhere(status, Attached(Clauses(f)));
    if admin.role == UserRole {
      AssigneeKeyAttaches(f);
    }
    forall customer
      ensures HoldsAll(Clauses(f), customer) <==> CustomerMatches(admin, q, customer)
    {
      FilterObjectMeaning(admin, q, f, customer);
    }
  }

  /** An object with an assignee key has a clause, so it is attached. */
  lemma AssigneeKeyAttaches(f: CustomerFilterObject)
    requires f.AssignTo.Some?
    ensures Clauses(f) != []
  {
    var keys := [f.Campaign, f.CustomerType, f.CustomerSubType, f.City, f.Location, f.AssignTo, f.OR];
    assert keys[5].Some?;
  }

  /** A customer passes the filter object built for `admin` and `q` exactly when it matches every supplied filter. */
  lemma FilterObjectMeaning(admin: Admin, q: map<string, string>, f: CustomerFilterObject, customer: Row)
    requires f.Campaign == ColumnEntry(q, "Campaign", "Campaign")
    requires f.CustomerType == ColumnEntry(q, "CustomerType", "PropertyType")
    requires f.CustomerSubType == ColumnEntry(q, "CustomerSubType", "CustomerSubType")
    requires f.City == ColumnEntry(q, "City", "City")
    requires f.Location == ColumnEntry(q, "Location", "Location")
    requires admin.role == UserRole ==> f.AssignTo == Some(Equals("AssignTo.id", admin.id))
    requires admin.role != UserRole ==> f.AssignTo == ColumnEntry(q, "AssignTo.name", "User")
    requires f.OR.Some? <==> Given(q, "keyword")
    requires f.OR.Some? ==> f.OR.value == AnyFieldContains(KeywordFields, Param(q, "keyword"))
    ensures HoldsAll(Clauses(f), customer) <==> CustomerMatches(admin, q, customer)
  {
    SevenKeys(f.Campaign, f.CustomerType, f.CustomerSubType, f.City, f.Location, f.AssignTo, f.OR, customer);
    ColumnEntryMeaning(q, "Campaign", "Campaign", customer);
    ColumnEntryMeaning(q, "CustomerType", "PropertyType", customer);
    ColumnEntryMeaning(q, "CustomerSubType", "CustomerSubType", customer);
    ColumnEntryMeaning(q, "City", "City", customer);
    ColumnEntryMeaning(q, "Location", "Location", customer);
    ColumnEntryMeaning(q, "AssignTo.name", "User", customer);
    if Given(q, "keyword") {
      AnyFieldContainsMeaning(KeywordFields, Param(q, "keyword"), customer);
    }
  }

  /** A key that is absent asks nothing; a present one must hold. */
  predicate KeyHolds(k: Option<Clause>, row: Row) {
    k.Some? ==> Holds(k.value, row)
  }

  /** The clauses of seven optional keys hold exactly when each key does. */
  lemma SevenKeys(a: Option<Clause>, b: Option<Clause>, c: Option<Clause>, d: Option<Clause>,
                  e: Option<Clause>, g: Option<Clause>, h: Option<Clause>, row: Row)
    ensures HoldsAll(Somes([a, b, c, d, e, g, h]), row) <==>
      KeyHolds(a, row) && KeyHolds(b, row) && KeyHolds(c, row) && KeyHolds(d, row)
      && KeyHolds(e, row) && KeyHolds(g, row) && KeyHolds(h, row)
  {
    var k6 := [h];
    var k5 := [g] + k6;
    var k4 := [e] + k5;
    var k3 := [d] + k4;
    var k2 := [c] + k3;
    var k1 := [b] + k2;
    var k0 := [a] + k1;
    assert k0 == [a, b, c, d, e, g, h];
    SomesCons(h, [], row);
    assert [h] + [] == k6;
    SomesCons(g, k6, row);
    SomesCons(e, k5, row);
    SomesCons(d, k4, row);
    SomesCons(c, k3, row);
    SomesCons(b, k2, row);
    SomesCons(a, k1, row);
    assert Somes([]) == [];
  }

  /** The clauses of a key list hold exactly when its first key and the clauses of the rest do. */
  lemma SomesCons(k: Option<Clause>, rest: seq<Option<Clause>>, row: Row)
    ensures HoldsAll(Somes([k] + rest), row) <==> KeyHolds(k, row) && HoldsAll(Somes(rest), row)
  {
    var keys := [k] + rest;
    assert keys[1..] == rest;
    var head := if k.Some? then [k.value] else [];
    assert Somes(keys) == head + Somes(rest);
    HoldsAllConcat(head, Somes(rest), row);
    if k.Some? {
      HoldsAllOne(k.value, row);
    }
  }

  // ---------------------------------------------------------------- update and response

  /** The four fields a follow-up update may carry. */
  const UpdateFields: set<string> := {"StartDate", "StatusType", "FollowupNextDate", "Description"}

  /** `updateFollowup`'s data: each of the four fields that was sent with a truthy value, unchanged. */
  function FollowupUpdate(body: map<string, JsValue>): (r: map<string, JsValue>)
    ensures forall k :: k in r <==> k in UpdateFields && Truthy(Lookup(body, k))
    ensures forall k :: k in r ==> k in body && r[k] == body[k]
  {
    map k | k in UpdateFields && Truthy(Lookup(body, k)) :: body[k]
  }

  /** An update can never blank a field: a falsy value (empty text, null) leaves the stored value alone. */
  lemma UpdateNeverBlanks(body: map<string, JsValue>, k: string)
    requires k in body && !Truthy(body[k])
    ensures k !in FollowupUpdate(body)
  {
  }

  /** The customer columns copied into a follow-up response, `|| ""` each. */
  const CustomerTextKeys: set<string> := {
    "Campaign", "CustomerType", "CustomerSubType", "customerName", "ContactNumber", "Email", "City",
    "Location", "Area", "Adderess", "Facillities", "ReferenceId", "CustomerId", "CustomerDate",
    "CustomerYear", "Other", "Description", "Video", "Verified", "GoogleMap"}

  /** The follow-up's own columns in a response, `|| ""` each. */
  const OwnTextKeys: set<string> := {"StartDate", "StatusType", "FollowupNextDate", "Description"}

  /**
   * `transformFollowup`'s text fields: the customer's (empty when the
   * follow-up has no customer) and the follow-up's own, each made "" when
   * falsy; and the assignee, null without one.
   */
  function TransformedTexts(own: map<string, JsValue>, customer: Option<map<string, JsValue>>)
    : (r: (map<string, JsValue>, map<string, JsValue>, JsValue))
    ensures forall k :: k in r.0 <==> k in CustomerTextKeys
    ensures forall k :: k in r.1 <==> k in OwnTextKeys
    ensures forall k :: k in r.0 ==> Truthy(r.0[k]) || r.0[k] == Str("")
    ensures customer.None? ==> (forall k :: k in r.0 ==> r.0[k] == Str("")) && r.2 == Null
    ensures customer.Some? ==> forall k :: k in r.0 && Truthy(Lookup(customer.value, k)) ==> r.0[k] == customer.value[k]
    ensures forall k :: k in r.1 ==> (Truthy(Lookup(own, k)) ==> r.1[k] == own[k]) && (!Truthy(Lookup(own, k)) ==> r.1[k] == Str(""))
    ensures customer.Some? ==> forall k :: k in r.0 && !Truthy(Lookup(customer.value, k)) ==> r.0[k] == Str("")
    ensures r.2 != Null ==> customer.Some? && Truthy(Lookup(customer.value, "AssignTo"))
    ensures customer.Some? && Truthy(Lookup(customer.value, "AssignTo")) ==> r.2 == customer.value["AssignTo"]
  {
    var c := if customer.Some? then customer.value else map[];
    (map k | k in CustomerTextKeys :: ToEmptyString(Lookup(c, k)),
     map k | k in OwnTextKeys :: ToEmptyString(Lookup(own, k)),
     if Truthy(Lookup(c, "AssignTo")) then Lookup(c, "AssignTo") else Null)
  }
}
