/**
 * The company-project handlers: the listing filter and order, the strict
 * `parseJSON` of stored image lists, and the image-list composition and key
 * stripping of an update.
 */
module CompanyProjects {
  import opened Wrappers
  import opened Strings
  import opened Js
  import opened Query
  import opened Agent
  import opened ImageLists
  import opened CustomerController

  /** The host folders of the two image lists. */
  const ImageFolder: string := "projects/project_images"
  const PlanFolder: string := "projects/site_plans"

  /**
   * `parseJSON(field)`: a falsy field is the empty list, text is parsed and
   * text that does not parse throws (500), anything else is returned as is.
   */
  function ParseJson(field: JsValue, parse: Parser): (r: Outcome<JsValue>)
    ensures !Truthy(field) ==> r == Done(Arr([]))
    ensures field.Str? && field.s != "" ==> (r.Fail? <==> parse(field.s).None?)
    ensures r.Fail? ==> r.status == 500
    ensures Truthy(field) && !field.Str? ==> r == Done(field)
  {
    if !Truthy(field) then Done(Arr([]))
    else if field.Str? then
      match parse(field.s)
      case Some(v) => Done(v)
      case None => Fail(500)
    else Done(field)
  }

  /** Malformed stored text breaks a project response, where the tolerant parse of an update reads it as nothing. */
  lemma StrictAndTolerantParseDiffer(s: string, parse: Parser)
    requires s != "" && parse(s).None?
    ensures ParseJson(Str(s), parse) == Fail(500)
    ensures SafeParse(Str(s), parse) == Undefined
  {
  }

  /**
   * `transformProject`: the record with `_id` from `id` and both image
   * lists parsed; 500 when either stored list is malformed text.
   */
  function TransformProject(project: map<string, JsValue>, parse: Parser): (r: Outcome<map<string, JsValue>>)
    ensures r.Done? <==> ParseJson(Lookup(project, "CustomerImage"), parse).Done? && ParseJson(Lookup(project, "SitePlan"), parse).Done?
    ensures r.Done? ==> "_id" in r.value && r.value["_id"] == Lookup(project, "id")
    ensures r.Done? ==> forall k :: k in project && k !in {"_id", "CustomerImage", "SitePlan"} ==> k in r.value && r.value[k] == project[k]
  {
    var images := ParseJson(Lookup(project, "CustomerImage"), parse);
    var plans := ParseJson(Lookup(project, "SitePlan"), parse);
    if images.Fail? || plans.Fail? then Fail(500)
    else Done(project["_id" := Lookup(project, "id")]["CustomerImage" := images.value]["SitePlan" := plans.value])
  }

  // ---------------------------------------------------------------- listing

  /** A supplied (truthy) query parameter. */
  predicate Supplied(q: map<string, string>, p: string) {
    p in q && q[p] != ""
  }

  /** The four listing filters, each a case-insensitive `contains` of the untrimmed text. */
  const ProjectFilterKeys: seq<string> := ["ProjectName", "ProjectStatus", "Range", "City"]

  /** One clause per supplied filter parameter, in order. */
  function ProjectClauses(q: map<string, string>, keys: seq<string>): (r: seq<Clause>)
    ensures |r| <= |keys|
  {
    if keys == [] then []
    else (if Supplied(q, keys[0]) then [ContainsNoCase(keys[0], q[keys[0]])] else []) + ProjectClauses(q, keys[1..])
  }

  /** A project passes the listing's where iff, for every supplied parameter, its column holds the text ignoring case. */
  lemma {:induction false} ProjectClausesMeaning(q: map<string, string>, keys: seq<string>, row: Row)
    ensures HoldsAll(ProjectClauses(q, keys), row) <==>
      forall i :: 0 <= i < |keys| && Supplied(q, keys[i]) ==> keys[i] in row && Contains(ToLower(row[keys[i]]), ToLower(q[keys[i]]))
  {
    if keys != [] {
      ProjectClausesMeaning(q, keys[1..], row);
      var head := if Supplied(q, keys[0]) then [ContainsNoCase(keys[0], q[keys[0]])] else [];
      HoldsAllConcat(head, ProjectClauses(q, keys[1..]), row);
      if Supplied(q, keys[0]) {
        assert HoldsAll(head, row) <==> Holds(head[0], row);
      }
      assert forall i :: 1 <= i < |keys| ==> keys[i] == keys[1..][i - 1];
    }
  }

  /** `getProjects`' order on createdAt: ascending iff `sort` lower-cases to "asc". */
  function ProjectOrder(sort: Option<string>): (r: string)
    ensures r == "asc" <==> sort.Some? && ToLower(sort.value) == "asc"
    ensures r != "asc" ==> r == "desc"
  {
    if sort.Some? && ToLower(sort.value) == "asc" then "asc" else "desc"
  }

  // ---------------------------------------------------------------- update

  /** Keys an update never writes as they were sent. */
  const StrippedKeys: set<string> := {"id", "_id", "createdAt", "updatedAt", "CreatedBy", "removedCustomerImages", "removedSitePlans"}

  /** What an accepted update writes: the other columns, both final image lists, and the host paths destroyed. */
  datatype ProjectUpdate = ProjectUpdate(data: map<string, JsValue>, CustomerImage: seq<string>, SitePlan: seq<string>, destroyed: seq<string>)

  /**
   * `updateProject`: 404 for an unknown project, 500 for a removal list
   * sent as non-empty text that is not JSON; otherwise each list is the
   * stored one minus the removed URLs, or nothing after an explicitly sent
   * empty array, followed by the uploads; the paths destroyed are those of
   * the removed URLs, then, on a clear, those of the URLs still held, images
   * before site plans; and the body's other keys pass through except the
   * stripped ones.
   */
  method UpdateProject(body: map<string, JsValue>, found: bool, storedImages: Option<string>, storedPlans: Option<string>,
                       imageUploads: seq<string>, planUploads: seq<string>, parse: Parser)
    returns (r: Outcome<ProjectUpdate>)
    ensures !found ==> r == Fail(404)
    ensures r.Done? <==> found && RemovalList(Lookup(body, "removedCustomerImages"), parse).Some?
                          && RemovalList(Lookup(body, "removedSitePlans"), parse).Some?
    ensures r.Fail? ==> r.status == 404 || r.status == 500
    ensures r.Done? ==> r.value.CustomerImage == Composed(StoredImages(storedImages, parse).GetOr([]),
                          RemovalList(Lookup(body, "removedCustomerImages"), parse).value,
                          ClearRequested(Lookup(body, "CustomerImage"), parse), imageUploads)
    ensures r.Done? ==> r.value.SitePlan == Composed(StoredImages(storedPlans, parse).GetOr([]),
                          RemovalList(Lookup(body, "removedSitePlans"), parse).value,
                          ClearRequested(Lookup(body, "SitePlan"), parse), planUploads)
    ensures r.Done? ==>
      r.value.destroyed ==
        Destroyed(ImageFolder, StoredImages(storedImages, parse).GetOr([]), RemovalList(Lookup(body, "removedCustomerImages"), parse).value,
                  ClearRequested(Lookup(body, "CustomerImage"), parse), true)
        + Destroyed(PlanFolder, StoredImages(storedPlans, parse).GetOr([]), RemovalList(Lookup(body, "removedSitePlans"), parse).value,
                    ClearRequested(Lookup(body, "SitePlan"), parse), true)
    ensures r.Done? ==> forall k :: k in r.value.data <==> k in body && k !in StrippedKeys && k != "CustomerImage" && k != "SitePlan"
    ensures r.Done? ==> forall k :: k in r.value.data ==> r.value.data[k] == body[k]
  {
    var updateData := body;
    var sentImages := SafeParse(Lookup(body, "CustomerImage"), parse);
    var sentPlans := SafeParse(Lookup(body, "SitePlan"), parse);
    var removedImages := RemovalList(Lookup(body, "removedCustomerImages"), parse);
    var removedPlans := RemovalList(Lookup(body, "removedSitePlans"), parse);
    if !found {
      return Fail(404);
    }
    if removedImages.None? || removedPlans.None? {
      return Fail(500);
    }
    var images, imagesGone := UpdateImageList(ImageFolder, StoredImages(storedImages, parse).GetOr([]),
                                              removedImages.value, sentImages == Arr([]), imageUploads, true);
    var plans, plansGone := UpdateImageList(PlanFolder, StoredImages(storedPlans, parse).GetOr([]),
                                            removedPlans.value, sentPlans == Arr([]), planUploads, true);
    updateData := updateData - StrippedKeys - {"CustomerImage", "SitePlan"};
    r := Done(ProjectUpdate(updateData, images, plans, imagesGone + plansGone));
  }
}
