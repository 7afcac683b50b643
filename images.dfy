/**
 * Image lists stored as JSON arrays of URLs on customers, projects and
 * builder slides: the public id a URL is stored under at the image host,
 * the tolerant parse of what the client sent, and the update rule
 * "remove the listed URLs, clear all on an explicit empty array, then
 * append the new uploads".
 */
module ImageLists {
  import opened Wrappers
  import opened Strings
  import opened Js
  import opened Agent

  predicate NotDot(c: char) { c != '.' }

  /**
   * `getPublicIdFromUrl(url)`: the last "/"-separated segment up to its
   * first "."; null when `url` is not a string (the TypeError is caught).
   */
  function PublicIdFromUrl(url: JsValue): (r: Option<string>)
    ensures r.Some? <==> url.Str?
  {
    if url.Str? then
      var parts := Split(url.s, ['/']);
      Some(Split(parts[|parts| - 1], ['.'])[0])
    else None
  }

  /** For `.../<name>.<ext>` the public id is `name`: the directory and the extension are dropped. */
  lemma PublicIdOfFile(dir: string, name: string, ext: string)
    requires '/' !in name && '.' !in name && '/' !in ext
    ensures PublicIdFromUrl(Str(dir + "/" + name + "." + ext)) == Some(name)
  {
    var file := name + "." + ext;
    assert dir + "/" + name + "." + ext == dir + ['/'] + file;
    NoSlashInFile(name, ext);
    LastSegment(dir, file);
    FirstDotPiece(name, ext);
  }

  lemma NoSlashInFile(name: string, ext: string)
    requires '/' !in name && '/' !in ext
    ensures '/' !in name + "." + ext
  {
    var file := name + "." + ext;
    assert forall i :: 0 <= i < |file| ==> file[i] == (if i < |name| then name[i] else if i == |name| then '.' else ext[i - |name| - 1]);
  }

  lemma LastSegment(dir: string, file: string)
    requires '/' !in file
    ensures var parts := Split(dir + ['/'] + file, ['/']); parts[|parts| - 1] == file
  {
    SplitAround(dir, file, '/');
    SplitWithoutSeparator(file, '/');
  }

  lemma FirstDotPiece(name: string, ext: string)
    requires '.' !in name
    ensures Split(name + "." + ext, ['.'])[0] == name
  {
    var file := name + "." + ext;
    FirstPieceIsPrefix(file, '.', NotDot);
    var p := LongestPrefix(file, NotDot);
    assert file[|name|] == '.';
    assert |p| <= |name| by { assert !NotDot(file[|name|]); }
    assert forall i :: 0 <= i < |name| ==> NotDot(file[i]) by { assert file[..|name|] == name; }
    assert p == file[..|name|] == name;
  }

  /**
   * `safeParse(value)` of the customer and project handlers: absent, null
   * and "" give undefined, arrays pass unchanged, anything else goes
   * through `JSON.parse` (of its string form), a parse failure giving undefined.
   */
  function SafeParse(v: JsValue, parse: Parser): (r: JsValue)
    ensures (v.Undefined? || v.Null? || v == Str("")) ==> r.Undefined?
    ensures v.Arr? ==> r == v
  {
    match v
    case Undefined => Undefined
    case Null => Undefined
    case Arr(_) => v
    case Str(s) => if s == "" then Undefined else (match parse(s) case Some(x) => x case None => Undefined)
    case _ => match parse(ToJsString(v)) case Some(x) => x case None => Undefined
  }

  /** The client asked to clear the whole list: what it sent parses to an empty array. */
  predicate ClearRequested(sent: JsValue, parse: Parser) {
    SafeParse(sent, parse) == Arr([])
  }

  /** Clearing happens only for an explicitly sent empty array: an omitted field or text that does not parse never clears. */
  lemma ClearOnlyWhenSentEmpty(sent: JsValue, parse: Parser)
    ensures sent == Arr([]) ==> ClearRequested(sent, parse)
    ensures sent.Undefined? || sent.Null? || sent == Str("") ==> !ClearRequested(sent, parse)
    ensures sent.Str? && parse(sent.s).None? ==> !ClearRequested(sent, parse)
    ensures sent.Str? && sent.s != "" ==> (ClearRequested(sent, parse) <==> parse(sent.s) == Some(Arr([])))
    ensures sent.Arr? ==> (ClearRequested(sent, parse) <==> sent.items == [])
  {
  }

  /** `images.filter(img => !removed.includes(img))`. */
  function Without(images: seq<string>, removed: seq<string>): (r: seq<string>)
    ensures |r| <= |images|
    ensures forall x :: x in r <==> x in images && x !in removed
  {
    if images == [] then []
    else if images[0] in removed then Without(images[1..], removed)
    else [images[0]] + Without(images[1..], removed)
  }

  /** The final list: the kept images (none after a clear), then the uploads in order. */
  function Composed(existing: seq<string>, removed: seq<string>, clear: bool, uploads: seq<string>): seq<string> {
    (if clear then [] else Without(existing, removed)) + uploads
  }

  /**
   * The update rule, stated without the rule: a URL ends up in the list iff
   * it was uploaded now or it was kept (no clear, not listed for removal);
   * the uploads come last and in order; nothing else is added.
   */
  lemma ComposedMeaning(existing: seq<string>, removed: seq<string>, clear: bool, uploads: seq<string>)
    ensures var r := Composed(existing, removed, clear, uploads);
      && |r| >= |uploads| && r[|r| - |uploads|..] == uploads
      && (forall x :: x in r <==> x in uploads || (!clear && x in existing && x !in removed))
      && (clear ==> r == uploads)
      && (!clear && removed == [] ==> r == existing + uploads)
  {
    var r := Composed(existing, removed, clear, uploads);
    var kept := if clear then [] else Without(existing, removed);
    assert r[|kept|..] == uploads;
    if !clear && removed == [] { WithoutNothing(existing); }
  }

  lemma {:induction false} WithoutNothing(images: seq<string>)
    ensures Without(images, []) == images
  {
    if images != [] { WithoutNothing(images[1..]); }
  }

  /**
   * The host paths destroyed for a list of URLs: `folder/<public id>`; with
   * `skipBlank` (customers, projects) a blank id is skipped, without it
   * (builder slides) it is destroyed as is.
   */
  function DestroyPaths(folder: string, urls: seq<string>, skipBlank: bool): (r: seq<string>)
    ensures |r| <= |urls|
    ensures !skipBlank ==> |r| == |urls|
  {
    if urls == [] then []
    else PathOf(folder, urls[0], skipBlank) + DestroyPaths(folder, urls[1..], skipBlank)
  }

  /** The paths one URL destroys: `folder/<public id>`, or none when blank ids are skipped and its id is blank. */
  function PathOf(folder: string, url: string, skipBlank: bool): (r: seq<string>)
    ensures |r| <= 1
    ensures !skipBlank ==> r == [folder + "/" + PublicIdOf(url)]
  {
    if skipBlank && PublicIdOf(url) == "" then [] else [folder + "/" + PublicIdOf(url)]
  }

  /** Without skipping, the i-th path destroyed is that of the i-th URL. */
  lemma {:induction false} DestroyPathsAt(folder: string, urls: seq<string>)
    ensures var r := DestroyPaths(folder, urls, false);
      |r| == |urls| && forall i :: 0 <= i < |urls| ==> r[i] == folder + "/" + PublicIdOf(urls[i])
  {
    if urls != [] {
      DestroyPathsAt(folder, urls[1..]);
    }
  }

  /** Every listed URL with a public id (every listed URL, when blank ids are not skipped) has its path destroyed. */
  lemma {:induction false} DestroyPathsCover(folder: string, urls: seq<string>, skipBlank: bool, u: string)
    requires u in urls && (!skipBlank || PublicIdOf(u) != "")
    ensures folder + "/" + PublicIdOf(u) in DestroyPaths(folder, urls, skipBlank)
  {
    if urls[0] != u {
      DestroyPathsCover(folder, urls[1..], skipBlank, u);
    }
  }

  /** The public id of a stored URL, which is always text. */
  function PublicIdOf(url: string): string {
    PublicIdFromUrl(Str(url)).value
  }

  /**
   * The paths of a list are the paths of its parts, in order: with
   * `DestroyPathsOne` this fixes every path destroyed and their order.
   */
  lemma {:induction false} DestroyPathsConcat(folder: string, a: seq<string>, b: seq<string>, skipBlank: bool)
    ensures DestroyPaths(folder, a + b, skipBlank) == DestroyPaths(folder, a, skipBlank) + DestroyPaths(folder, b, skipBlank)
  {
    if a == [] {
      assert a + b == b;
    } else {
      var ab := a + b;
      assert ab[0] == a[0] && ab[1..] == a[1..] + b;
      DestroyPathsConcat(folder, a[1..], b, skipBlank);
    }
  }

  /** One URL destroys `folder/<public id>`, unless blank ids are skipped and its id is blank. */
  lemma DestroyPathsOne(folder: string, url: string, skipBlank: bool)
    ensures DestroyPaths(folder, [url], skipBlank) == if skipBlank && PublicIdOf(url) == "" then [] else [folder + "/" + PublicIdOf(url)]
  {
    assert [url][1..] == [];
    assert PathOf(folder, url, skipBlank) + [] == PathOf(folder, url, skipBlank);
  }

  /** The paths an update destroys: those of the removed URLs, then, on a clear, those of the URLs still held. */
  function Destroyed(folder: string, existing: seq<string>, removed: seq<string>, clear: bool, skipBlank: bool): seq<string> {
    DestroyPaths(folder, removed, skipBlank) + (if clear then DestroyPaths(folder, Without(existing, removed), skipBlank) else [])
  }

  /**
   * One image field of an update handler, step by step as the handler
   * does it: drop the removed URLs (when any were listed), clear on an
   * explicit empty array, append the uploads. Returns the final list and
   * the host paths destroyed on the way.
   */
  method UpdateImageList(folder: string, existing: seq<string>, removed: seq<string>, clear: bool,
                         uploads: seq<string>, skipBlank: bool)
    returns (images: seq<string>, destroyed: seq<string>)
    ensures images == Composed(existing, removed, clear, uploads)
    ensures destroyed == Destroyed(folder, existing, removed, clear, skipBlank)
  {
    images := existing;
    destroyed := [];
    if |removed| > 0 {
      destroyed := DestroyPaths(folder, removed, skipBlank);
      images := Without(images, removed);
    } else {
      WithoutNothing(existing);
      assert removed == [];
    }
    ghost var first := DestroyPaths(folder, removed, skipBlank);
    assert images == Without(existing, removed) && destroyed == first;
    if clear {
      destroyed := destroyed + DestroyPaths(folder, images, skipBlank);
      images := [];
    } else {
      assert destroyed == first + [];
    }
    images := images + uploads;
  }
}
