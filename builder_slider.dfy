/**
 * The builder-slider handlers: the response shape, the update's own tolerant
 * parse, and the image-list composition that is the only thing an update
 * changes besides Status.
 */
module BuilderSliders {
  import opened Wrappers
  import opened Strings
  import opened Js
  import opened Agent
  import opened ImageLists
  import opened CustomerController
  import opened CompanyProjects

  /** The host folder of the slide images. */
  const SlideFolder: string := "builders/images"

  /**
   * `safeParse(value)` of `updateBuilder`: every falsy value gives
   * undefined, arrays pass unchanged, anything else goes through
   * `JSON.parse`, a failure giving undefined.
   */
  function SlideParse(v: JsValue, parse: Parser): (r: JsValue)
    ensures !Truthy(v) ==> r.Undefined?
    ensures v.Arr? ==> r == v
    ensures v.Str? && v.s != "" && parse(v.s).None? ==> r.Undefined?
    ensures Truthy(v) ==> r == SafeParse(v, parse)
  {
    if !Truthy(v) then Undefined else SafeParse(v, parse)
  }

  /** Unlike the project handlers' parse, this one does not read the text "0" or "false" sent as a number or boolean. */
  lemma FalsyNumberIgnored(parse: Parser)
    requires parse("0") == Some(Arr([]))
    ensures SlideParse(Num(0), parse).Undefined?
    ensures SafeParse(Num(0), parse) == Arr([])
  {
    assert ToJsString(Num(0)) == "0" by { assert NatToString(0) == "0"; }
  }

  /** `safeParse(x) || []` as a removal list: an array gives its text entries, non-empty text fails (500), anything else removes nothing. */
  function SlideRemovals(v: JsValue, parse: Parser): (r: Option<seq<string>>)
    ensures !Truthy(SlideParse(v, parse)) ==> r == Some([])
    ensures SlideParse(v, parse).Arr? ==> r == Some(StrItems(SlideParse(v, parse).items))
    ensures r.None? <==> SlideParse(v, parse).Str? && SlideParse(v, parse).s != ""
  {
    match SlideParse(v, parse)
    case Arr(items) => Some(StrItems(items))
    case Str(s) => if s == "" then Some([]) else None
    case _ => Some([])
  }

  /** `transformBuilder`: `_id` from `id` and the image list parsed strictly (500 for malformed text). */
  function TransformBuilder(slide: map<string, JsValue>, parse: Parser): (r: Outcome<map<string, JsValue>>)
    ensures r.Done? <==> ParseJson(Lookup(slide, "Image"), parse).Done?
    ensures r.Done? ==> "_id" in r.value && r.value["_id"] == Lookup(slide, "id")
    ensures r.Done? ==> "Image" in r.value && r.value["Image"] == ParseJson(Lookup(slide, "Image"), parse).value
    ensures r.Done? ==> forall k :: k in slide && k != "_id" && k != "Image" ==> k in r.value && r.value[k] == slide[k]
  {
    var image := ParseJson(Lookup(slide, "Image"), parse);
    if image.Fail? then Fail(500) else Done(slide["_id" := Lookup(slide, "id")]["Image" := image.value])
  }

  /** The stored list as `parseJSON` reads it: its text entries; a parsed value that is not an array counts as no images. */
  function SlideImages(stored: JsValue, parse: Parser): (r: Outcome<seq<string>>)
    ensures r.Fail? <==> ParseJson(stored, parse).Fail?
  {
    match ParseJson(stored, parse)
    case Fail(status) => Fail(status)
    case Done(Arr(items)) => Done(StrItems(items))
    case Done(_) => Done([])
  }

  /** What an update writes: Status as sent and the final image list; and the host paths destroyed. */
  datatype SlideUpdate = SlideUpdate(Status: JsValue, Image: seq<string>, destroyed: seq<string>)

  /**
   * `updateBuilder`: 404 for an unknown slide, 500 for malformed stored
   * text or a removal list sent as text; otherwise the stored list minus
   * the removed URLs, or nothing after an explicitly sent empty array,
   * followed by the uploads. Every removed or cleared URL is destroyed,
   * blank ids included.
   */
  method UpdateBuilder(body: map<string, JsValue>, found: bool, stored: JsValue, uploads: seq<string>, parse: Parser)
    returns (r: Outcome<SlideUpdate>)
    ensures !found ==> r == Fail(404)
    ensures r.Done? <==> found && SlideRemovals(Lookup(body, "removedImages"), parse).Some? && SlideImages(stored, parse).Done?
    ensures r.Done? ==> r.value.Status == Lookup(body, "Status")
    ensures r.Done? ==> r.value.Image == Composed(SlideImages(stored, parse).value,
                                                  SlideRemovals(Lookup(body, "removedImages"), parse).value,
                                                  SlideParse(Lookup(body, "Image"), parse) == Arr([]), uploads)
    ensures r.Done? ==> r.value.destroyed == Destroyed(SlideFolder, SlideImages(stored, parse).value,
                                                       SlideRemovals(Lookup(body, "removedImages"), parse).value,
                                                       SlideParse(Lookup(body, "Image"), parse) == Arr([]), false)
  {
    var sent := SlideParse(Lookup(body, "Image"), parse);
    var removed := SlideRemovals(Lookup(body, "removedImages"), parse);
    if !found {
      return Fail(404);
    }
    var images := SlideImages(stored, parse);
    if images.Fail? {
      return Fail(500);
    }
    if removed.None? {
      return Fail(500);
    }
    var final, destroyed := UpdateImageList(SlideFolder, images.value, removed.value, sent == Arr([]), uploads, false);
    r := Done(SlideUpdate(Lookup(body, "Status"), final, destroyed));
  }
}
