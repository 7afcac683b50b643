/**
 * The message-template handlers: required fields and defaults on
 * creation, the listing's page arithmetic and filters, and the
 * remove-or-replace rule of the single WhatsApp image on update.
 */
module TemplateController {
  import opened Wrappers
  import opened Strings
  import opened Js
  import opened Query
  import opened Agent
  import opened ImageLists
  import opened CustomerController
  import opened Paging

  /** The folder the template images live in at the image host. */
  const ImageFolder: string := "templates/whatsapp_images"

  // ---------------------------------------------------------------- create

  /** A destructuring default: the value unless it is undefined. */
  function OrDefault(v: JsValue, default: JsValue): (r: JsValue)
    ensures v.Undefined? ==> r == default
    ensures !v.Undefined? ==> r == v
  {
    if v.Undefined? then default else v
  }

  /** The record `createTemplate` stores. */
  datatype Template = Template(
    name: JsValue, kind: JsValue, subject: JsValue, body: JsValue, description: JsValue, status: JsValue,
    whatsappImage: seq<string>, createdBy: string)

  /**
   * `createTemplate`: 400 unless name, type and body are all truthy, 409 for
   * a name already taken; otherwise the stored record: name, type and body
   * as sent, subject and description as sent or "", status as sent or
   * "Active", the uploaded URLs as the image list (an empty list when
   * nothing was uploaded) and the creator "system": the handler writes
   * `req.user?.id || "system"`, but the authentication middleware stores
   * the signed-in account as `req.admin` and nothing sets `req.user`.
   */
  function CreateTemplate(body: map<string, JsValue>, nameTaken: bool, uploads: seq<string>)
    : (r: Outcome<Template>)
    ensures r.Fail? <==> !Truthy(Lookup(body, "name")) || !Truthy(Lookup(body, "type")) || !Truthy(Lookup(body, "body")) || nameTaken
    ensures r.Fail? ==> (r.status == 400 <==> !Truthy(Lookup(body, "name")) || !Truthy(Lookup(body, "type")) || !Truthy(Lookup(body, "body")))
    ensures r.Fail? ==> r.status == 400 || r.status == 409
    ensures r.Done? ==> r.value.name == Lookup(body, "name") && r.value.kind == Lookup(body, "type") && r.value.body == Lookup(body, "body")
    ensures r.Done? ==> r.value.whatsappImage == uploads
    ensures r.Done? ==> r.value.subject == (if Lookup(body, "subject").Undefined? then Str("") else Lookup(body, "subject"))
    ensures r.Done? ==> r.value.description == (if Lookup(body, "description").Undefined? then Str("") else Lookup(body, "description"))
    ensures r.Done? ==> r.value.status == (if Lookup(body, "status").Undefined? then Str("Active") else Lookup(body, "status"))
    ensures r.Done? ==> r.value.createdBy == "system"
  {
    if !Truthy(Lookup(body, "name")) || !Truthy(Lookup(body, "type")) || !Truthy(Lookup(body, "body")) then Fail(400)
    else if nameTaken then Fail(409)
    else
      Done(Template(
        Lookup(body, "name"), Lookup(body, "type"),
        OrDefault(Lookup(body, "subject"), Str("")),
        Lookup(body, "body"),
        OrDefault(Lookup(body, "description"), Str("")),
        OrDefault(Lookup(body, "status"), Str("Active")),
        uploads,
        "system"))
  }

  // ---------------------------------------------------------------- listing

  /** A non-empty `type` parameter. */
  predicate TypeGiven(typ: Option<string>) { typ.Some? && typ.value != "" }

  /** A search parameter that is not blank. */
  predicate SearchGiven(search: Option<string>) { search.Some? && Trim(search.value) != "" }

  /** The column holds the text, ignoring case. */
  predicate HasNoCase(row: Row, f: string, t: string) {
    f in row && Contains(ToLower(row[f]), ToLower(t))
  }

  /**
   * `getTemplates`' filters: the type equality when `type` is non-empty, and
   * for a non-blank search the untrimmed search text in name, body or
   * subject ignoring case. None stands for `{}` (no `AND` at all).
   */
  function TemplateWhere(typ: Option<string>, search: Option<string>): (r: Option<seq<Clause>>)
    ensures r.None? <==> !TypeGiven(typ) && !SearchGiven(search)
  {
    var filters := TypeFilter(typ) + SearchFilter(search);
    if filters == [] then None else Some(filters)
  }

  function TypeFilter(typ: Option<string>): seq<Clause> {
    if TypeGiven(typ) then [Equals("type", typ.value)] else []
  }

  function SearchFilter(search: Option<string>): seq<Clause> {
    if SearchGiven(search) then
      [AnyOf([ContainsNoCase("name", search.value), ContainsNoCase("body", search.value), ContainsNoCase("subject", search.value)])]
    else []
  }

  /** A template passes the listing's where iff it has the given type and, for a non-blank search, holds the search text in name, body or subject. */
  lemma TemplateWhereMeaning(typ: Option<string>, search: Option<string>, row: Row)
    ensures var r := TemplateWhere(typ, search);
      (r.None? || HoldsAll(r.value, row)) <==>
        && (TypeGiven(typ) ==> "type" in row && row["type"] == typ.value)
        && (SearchGiven(search) ==>
              HasNoCase(row, "name", search.value) || HasNoCase(row, "body", search.value) || HasNoCase(row, "subject", search.value))
  {
    HoldsAllConcat(TypeFilter(typ), SearchFilter(search), row);
    TypeFilterMeaning(typ, row);
    SearchFilterMeaning(search, row);
  }

  lemma TypeFilterMeaning(typ: Option<string>, row: Row)
    ensures HoldsAll(TypeFilter(typ), row) <==> (TypeGiven(typ) ==> "type" in row && row["type"] == typ.value)
  {
    if TypeGiven(typ) {
      HoldsAllOne(Equals("type", typ.value), row);
    }
  }

  lemma SearchFilterMeaning(search: Option<string>, row: Row)
    ensures HoldsAll(SearchFilter(search), row) <==>
      (SearchGiven(search) ==>
         HasNoCase(row, "name", search.value) || HasNoCase(row, "body", search.value) || HasNoCase(row, "subject", search.value))
  {
    if SearchGiven(search) {
      var t := search.value;
      var c := AnyOf([ContainsNoCase("name", t), ContainsNoCase("body", t), ContainsNoCase("subject", t)]);
      assert SearchFilter(search) == [c];
      HoldsAllOne(c, row);
      AnyOfThree(ContainsNoCase("name", t), ContainsNoCase("body", t), ContainsNoCase("subject", t), row);
    }
  }

  /** `page` and `limit` of a template listing: 1 and 10 unless they parse to at least 1. */
  function TemplatePage(page: Option<string>, limit: Option<string>): (r: (int, int))
    ensures r.0 >= 1 && r.1 >= 1
    ensures r.0 == PageOrDefault(page, 1) && r.1 == PageOrDefault(limit, 10)
  {
    (PageOrDefault(page, 1), PageOrDefault(limit, 10))
  }

  // ---------------------------------------------------------------- update

  /** The keys an update never writes. */
  const ForbiddenKeys: set<string> := {"_id", "id", "createdAt", "updatedAt", "removeImage"}

  /** `removeImage` reads as true. */
  predicate Removing(body: map<string, JsValue>) {
    ToBoolean(Lookup(body, "removeImage")) == Some(true)
  }

  /**
   * The stored image list: what `JSON.parse` makes of the stored value (or
   * of "[]" when it is empty); when that fails, the stored value itself if
   * it is an array, else nothing.
   */
  function ExistingImages(stored: JsValue, parse: Parser): (r: seq<JsValue>)
    ensures var parsed := parse(if Truthy(stored) then ToJsString(stored) else "[]");
      (parsed.Some? && parsed.value.Arr? ==> r == parsed.value.items)
      && (parsed.None? && stored.Arr? ==> r == stored.items)
      && (!(parsed.Some? && parsed.value.Arr?) && !(parsed.None? && stored.Arr?) ==> r == [])
  {
    match parse(if Truthy(stored) then ToJsString(stored) else "[]")
    case Some(Arr(items)) => items
    case Some(_) => []
    case None => if stored.Arr? then stored.items else []
  }

  /**
   * The host path destroyed for a removal: only the first stored image, and
   * only when it is a URL with a non-empty public id.
   */
  function FirstImagePath(images: seq<JsValue>): (r: seq<string>)
    ensures |r| <= 1
    ensures r != [] ==> images != [] && images[0].Str? && r == [ImageFolder + "/" + PublicIdFromUrl(images[0]).value]
    ensures images != [] && images[0].Str? && PublicIdFromUrl(images[0]).value != "" ==> r != []
  {
    if images != [] && images[0].Str? && PublicIdFromUrl(images[0]).value != "" then
      [ImageFolder + "/" + PublicIdFromUrl(images[0]).value]
    else []
  }

  /** The first stored image cannot be read: it is truthy but not text, and splitting it throws. */
  predicate FirstUnreadable(images: seq<JsValue>) {
    images != [] && Truthy(images[0]) && !images[0].Str?
  }

  /**
   * `updateTemplate`, step by step: drop the forbidden keys, read
   * `removeImage`, 404 for an unknown template; on removal destroy the
   * first stored image and clear the list; an upload together with a
   * removal is refused (400) only after that destruction, otherwise the
   * first upload becomes the one-element list. Returns the update data and
   * the host paths destroyed.
   */
  method UpdateTemplate(body: map<string, JsValue>, found: bool, stored: JsValue, parse: Parser, uploads: seq<string>)
    returns (r: Outcome<map<string, JsValue>>, destroyed: seq<string>)
    ensures !found ==> r == Fail(404) && destroyed == []
    ensures destroyed != [] ==> found && Removing(body) && destroyed == FirstImagePath(ExistingImages(stored, parse))
    ensures found && Removing(body) && uploads != [] ==>
      r.Fail? && destroyed == FirstImagePath(ExistingImages(stored, parse))
    ensures found && Removing(body) && FirstUnreadable(ExistingImages(stored, parse)) ==> r == Fail(500)
    ensures found && Removing(body) && !FirstUnreadable(ExistingImages(stored, parse)) && uploads != [] ==> r == Fail(400)
    ensures r.Fail? ==> r.status in {400, 404, 500}
    ensures r.Done? ==> forall k :: k in ForbiddenKeys ==> k !in r.value
    ensures r.Done? ==> forall k :: k !in ForbiddenKeys && k != "whatsappImage" ==>
      (k in r.value <==> k in body) && (k in r.value ==> r.value[k] == body[k])
    ensures r.Done? && uploads != [] ==> "whatsappImage" in r.value && r.value["whatsappImage"] == Arr([Str(uploads[0])])
    ensures r.Done? && uploads == [] && Removing(body) ==> "whatsappImage" in r.value && r.value["whatsappImage"] == Arr([])
    ensures r.Done? && uploads == [] && !Removing(body) ==>
      ("whatsappImage" in r.value <==> "whatsappImage" in body) && ("whatsappImage" in r.value ==> r.value["whatsappImage"] == body["whatsappImage"])
    ensures found && !(Removing(body) && FirstUnreadable(ExistingImages(stored, parse))) && !(Removing(body) && uploads != []) ==> r.Done?
    ensures found && Removing(body) ==> destroyed == FirstImagePath(ExistingImages(stored, parse))
    ensures !Removing(body) ==> destroyed == []
  {
    var clean := body - {"_id", "id", "createdAt", "updatedAt"};
    var removeImage := ToBoolean(Lookup(clean, "removeImage"));
    clean := clean["removeImage" := FromOption(removeImage)];
    destroyed := [];
    if !found {
      return Fail(404), destroyed;
    }
    var images := ExistingImages(stored, parse);
    if removeImage == Some(true) {
      if |images| > 0 {
        if Truthy(images[0]) && !images[0].Str? {
          return Fail(500), destroyed;
        }
        if images[0].Str? {
          var publicId := PublicIdFromUrl(images[0]).value;
          if publicId != "" {
            destroyed := [ImageFolder + "/" + publicId];
          }
        }
      }
      clean := clean["whatsappImage" := Arr([])];
    }
    if uploads != [] {
      if removeImage == Some(true) {
        return Fail(400), destroyed;
      }
      clean := clean["whatsappImage" := Arr([Str(uploads[0])])];
    }
    clean := clean - {"removeImage"};
    return Done(clean), destroyed;
  }

  /** A removal destroys the image's own public id: for `.../<name>.<ext>` that is `templates/whatsapp_images/<name>`. */
  lemma FirstImagePathOfFile(dir: string, name: string, ext: string, rest: seq<JsValue>)
    requires '/' !in name && '.' !in name && '/' !in ext && name != ""
    ensures FirstImagePath([Str(dir + "/" + name + "." + ext)] + rest) == [ImageFolder + "/" + name]
  {
    PublicIdOfFile(dir, name, ext);
  }
}
