/**
 * The customer spreadsheet import: phone cleaning and extraction, header
 * mapping, routing of columns into custom fields, the valid/invalid split,
 * the insert loop with its growing set of known phones, and the
 * get-or-create caches for master records.
 */
module CustomerImport {
  import opened Wrappers
  import opened Strings
  import opened Js
  import opened Accounts
  import opened Agent
  import opened Sheets

  // ---------------------------------------------------------------- phone numbers

  /** `cleanNumber(num)`: "" for a falsy value, otherwise the ASCII digits of its text. */
  function CleanNumber(v: JsValue): (r: string)
    ensures forall i :: 0 <= i < |r| ==> IsDigit(r[i])
    ensures !Truthy(v) ==> r == ""
  {
    if !Truthy(v) then "" else DigitsOnly(Trim(ToJsString(v)))
  }

  /** The separators of `extractNumbers`: , / ; | - */
  const PhoneSeparators: seq<char> := [',', '/', ';', '|', '-']

  /** Each piece of the raw text, cleaned. */
  function Cleaned(pieces: seq<string>): (r: seq<string>)
    ensures |r| == |pieces|
    ensures forall i :: 0 <= i < |r| ==> r[i] == CleanNumber(Str(pieces[i]))
  {
    seq(|pieces|, i requires 0 <= i < |pieces| => CleanNumber(Str(pieces[i])))
  }

  /** The numbers `extractNumbers` joins: long cleaned pieces, first occurrences only. */
  function ExtractedList(v: JsValue): (r: seq<string>)
    ensures forall i :: 0 <= i < |r| ==> |r[i]| >= 10 && forall j :: 0 <= j < |r[i]| ==> IsDigit(r[i][j])
    ensures forall i, j :: 0 <= i < j < |r| ==> r[i] != r[j]
    ensures !Truthy(v) ==> r == []
    ensures Truthy(v) ==> forall x :: x in r <==> x in Cleaned(Split(ToJsString(v), PhoneSeparators)) && |x| >= 10
    ensures Truthy(v) ==> forall i, j :: 0 <= i < j < |r| ==> IndexOf(LongPieces(v), r[i]) < IndexOf(LongPieces(v), r[j])
  {
    if !Truthy(v) then []
    else
      var pieces := Split(ToJsString(v), PhoneSeparators);
      LongNumbers(pieces);
      LongDistinct(Cleaned(pieces));
      Dedup(LongPieces(v))
  }

  /** The cleaned pieces of at least ten digits, in order, repeats kept. */
  function LongPieces(v: JsValue): seq<string> {
    LongOnly(Cleaned(Split(ToJsString(v), PhoneSeparators)))
  }

  /** The first extracted number is the first long cleaned piece. */
  lemma ExtractedFirst(v: JsValue)
    requires Truthy(v) && LongPieces(v) != []
    ensures ExtractedList(v) != [] && ExtractedList(v)[0] == LongPieces(v)[0]
  {
    DedupFirst(LongPieces(v));
  }

  /** The long cleaned pieces are numbers of ten or more digits. */
  lemma LongNumbers(pieces: seq<string>)
    ensures var r := Dedup(LongOnly(Cleaned(pieces)));
      forall i :: 0 <= i < |r| ==> |r[i]| >= 10 && forall j :: 0 <= j < |r[i]| ==> IsDigit(r[i][j])
  {
    var cleaned := Cleaned(pieces);
    var r := Dedup(LongOnly(cleaned));
    forall i | 0 <= i < |r|
      ensures |r[i]| >= 10 && forall j :: 0 <= j < |r[i]| ==> IsDigit(r[i][j])
    {
      assert r[i] in LongOnly(cleaned);
      var k :| 0 <= k < |cleaned| && cleaned[k] == r[i];
    }
  }

  /** `extractNumbers(raw)`: the extracted numbers joined with ",". */
  function ExtractNumbers(v: JsValue): string {
    Join(ExtractedList(v), ",")
  }

  /**
   * Splitting the extracted text on "," gives back exactly the list of
   * numbers: distinct, digits only, at least ten digits each; the text is
   * empty exactly when no number was found.
   */
  lemma ExtractNumbersPieces(v: JsValue)
    ensures ExtractNumbers(v) == "" <==> ExtractedList(v) == []
    ensures ExtractedList(v) != [] ==> Split(ExtractNumbers(v), [',']) == ExtractedList(v)
  {
    var xs := ExtractedList(v);
    if xs != [] {
      forall i | 0 <= i < |xs| ensures ',' !in xs[i] {
        assert forall j :: 0 <= j < |xs[i]| ==> IsDigit(xs[i][j]);
      }
      SplitJoin(xs, ',');
      JoinNonEmpty(xs, ",");
    }
  }

  lemma {:induction false} JoinNonEmpty(xs: seq<string>, sep: string)
    requires xs != [] && xs[0] != []
    ensures Join(xs, sep) != []
  {
  }

  /** A row's ContactNumber: the first extracted number, or "" when there is none. */
  function FirstPhone(v: JsValue): (r: string)
    ensures r == (if ExtractedList(v) == [] then "" else ExtractedList(v)[0])
  {
    var joined := ExtractNumbers(v);
    ExtractNumbersPieces(v);
    if joined == "" then "" else Split(joined, [','])[0]
  }

  // ---------------------------------------------------------------- headers

  /** The built-in header map, by trimmed lower-case header. */
  const KeyMap: map<string, string> := map[
    "customer name" := "customerName", "fullname" := "customerName", "name" := "customerName",
    "contactnumber" := "ContactNumber", "phone" := "ContactNumber", "mobile" := "ContactNumber",
    "email" := "Email", "city" := "City", "location" := "Location", "sublocation" := "SubLocation",
    "area" := "Area", "address" := "Adderess", "facilities" := "Facillities", "description" := "Description",
    "referenceid" := "ReferenceId", "price" := "Price", "url" := "URL"]

  /** The header key after mapping: a truthy manual mapping first, then the built-in map, else the header unchanged. */
  function FinalKey(key: string, manual: map<string, JsValue>): string
  {
    var lower := Trim(ToLower(key));
    if lower in manual && Truthy(manual[lower]) then ToJsString(manual[lower])
    else if lower in KeyMap then KeyMap[lower]
    else key
  }

  /** Header mapping ignores letter case and surrounding white space whenever some mapping applies. */
  lemma FinalKeyIgnoresCaseAndPadding(k1: string, k2: string, manual: map<string, JsValue>)
    requires Trim(ToLower(k1)) == Trim(ToLower(k2))
    requires Trim(ToLower(k1)) in KeyMap || (Trim(ToLower(k1)) in manual && Truthy(manual[Trim(ToLower(k1))]))
    ensures FinalKey(k1, manual) == FinalKey(k2, manual)
  {
  }

  /** The header mapping of one import. */
  function KeyOf(manual: map<string, JsValue>): string -> string {
    k => FinalKey(k, manual)
  }

  /** `normalizeKeys(row, manual)`: one pass over the entries, writing each value under its mapped key. */
  method NormalizeKeys(row: seq<(string, JsValue)>, manual: map<string, JsValue>) returns (out: map<string, JsValue>)
    ensures out == Normalized(row, KeyOf(manual), Raw)
  {
    var keyOf := KeyOf(manual);
    out := map[];
    var i := 0;
    while i < |row|
      invariant 0 <= i <= |row|
      invariant out == Normalized(row[..i], keyOf, Raw)
    {
      assert row[..i + 1][..i] == row[..i];
      out := out[keyOf(row[i].0) := Raw(row[i].0, row[i].1)];
      i := i + 1;
    }
    assert row[..i] == row;
  }

  /** `key.toLowerCase()`. */
  function Lowered(key: string): string { ToLower(key) }

  /** `Object.keys(parsed).forEach(key => manualMap[key.toLowerCase()] = parsed[key])`. */
  method ManualMap(entries: seq<(string, JsValue)>) returns (manual: map<string, JsValue>)
    ensures manual == Normalized(entries, Lowered, Raw)
  {
    manual := map[];
    for i := 0 to |entries|
      invariant manual == Normalized(entries[..i], Lowered, Raw)
    {
      assert entries[..i + 1][..i] == entries[..i];
      manual := manual[Lowered(entries[i].0) := Raw(entries[i].0, entries[i].1)];
    }
    assert entries[..|entries|] == entries;
  }

  // ---------------------------------------------------------------- row processing

  /** The lower-cased column names of the customer table: keys with these names stay in the row. */
  const SchemaKeys: set<string> := {
    "campaign", "customertype", "customersubtype", "customername", "contactnumber", "city", "location",
    "sublocation", "area", "adderess", "email", "facillities", "description", "customerdate", "price",
    "url", "other", "referenceid", "customerid", "customeryear", "video", "verified", "googlemap"}

  /** `safeTrim(v)`: "" for undefined or null, otherwise the trimmed text. */
  function SafeTrim(v: JsValue): (r: string)
    ensures Nullish(v) ==> r == ""
    ensures r == [] || (!IsSpace(r[0]) && !IsSpace(r[|r| - 1]))
  {
    if Nullish(v) then "" else Trim(ToJsString(v))
  }

  /**
   * The `for (const key in r)` pass: a key whose lower-case form is an active
   * custom field moves (trimmed) into the custom fields; a key that is not a
   * column name is dropped; the others stay.
   */
  method RouteKeys(r: map<string, JsValue>, activeLower: set<string>)
    returns (row: map<string, JsValue>, fields: map<string, string>)
    ensures forall k :: k in fields <==> k in r && ToLower(k) in activeLower
    ensures forall k :: k in fields ==> fields[k] == SafeTrim(r[k])
    ensures forall k :: k in row <==> k in r && ToLower(k) !in activeLower && ToLower(k) in SchemaKeys
    ensures forall k :: k in row ==> row[k] == r[k]
    ensures row == RoutedRow(r, activeLower) && fields == RoutedFields(r, activeLower)
  {
    row := r;
    fields := map[];
    var todo := r.Keys;
    while todo != {}
      invariant todo <= r.Keys
      invariant forall k :: k in fields <==> k in r && k !in todo && ToLower(k) in activeLower
      invariant forall k :: k in fields ==> fields[k] == SafeTrim(r[k])
      invariant forall k :: k in row <==> k in r && (k in todo || (ToLower(k) !in activeLower && ToLower(k) in SchemaKeys))
      invariant forall k :: k in row ==> row[k] == r[k]
      decreases |todo|
    {
      var key :| key in todo;
      var lowerKey := ToLower(key);
      if lowerKey in activeLower {
        fields := fields[key := SafeTrim(r[key])];
        row := row - {key};
      } else if lowerKey !in SchemaKeys {
        row := row - {key};
      }
      todo := todo - {key};
    }
  }

  /** The text columns set to their trimmed value ("" when absent). */
  const TextColumns: seq<string> := [
    "City", "Location", "SubLocation", "Area", "Adderess", "Facillities", "Description",
    "Campaign", "CustomerType", "CustomerSubType", "Price", "URL", "Other", "ReferenceId"]

  /** A processed spreadsheet row. */
  datatype ImportRow = ImportRow(
    rest: map<string, JsValue>,
    CustomerFields: map<string, string>,
    customerName: string,
    ContactNumber: string,
    Email: Option<string>,
    text: map<string, string>)

  /** `r[k]` of the routed row. */
  function At(row: map<string, JsValue>, k: string): JsValue {
    if k in row then row[k] else Undefined
  }

  /** The trimmed text columns of a routed row. */
  function TextOf(row: map<string, JsValue>): (t: map<string, string>)
    ensures t.Keys == set c | c in TextColumns
    ensures forall c :: c in t ==> t[c] == SafeTrim(At(row, c))
  {
    map c | c in TextColumns :: SafeTrim(At(row, c))
  }

  /**
   * The processed row. The phone and the e-mail are read from the
   * normalized row before routing, so a custom field that takes their
   * column away does not empty them; everything else, the customer name
   * (customerName, else CustomerName, trimmed) included, is read from the
   * routed row.
   */
  function ProcessRow(normalized: map<string, JsValue>, row: map<string, JsValue>, fields: map<string, string>): (p: ImportRow)
    ensures p.customerName == SafeTrim(if Truthy(At(row, "customerName")) then At(row, "customerName")
                                       else if Truthy(At(row, "CustomerName")) then At(row, "CustomerName") else Str(""))
    ensures p.ContactNumber == FirstPhone(At(normalized, "ContactNumber"))
    ensures p.Email == (if SafeTrim(At(normalized, "Email")) == "" then None else Some(SafeTrim(At(normalized, "Email"))))
    ensures p.text == TextOf(row)
    ensures p.CustomerFields == fields
    ensures p.rest == row
  {
    var nameSource := if Truthy(At(row, "customerName")) then At(row, "customerName")
                      else if Truthy(At(row, "CustomerName")) then At(row, "CustomerName") else Str("");
    var email := SafeTrim(At(normalized, "Email"));
    ImportRow(row, fields, SafeTrim(nameSource), FirstPhone(At(normalized, "ContactNumber")),
              if email == "" then None else Some(email),
              TextOf(row))
  }

  /** The main part of a row after routing: the column names that are not active custom fields. */
  function RoutedRow(r: map<string, JsValue>, activeLower: set<string>): map<string, JsValue> {
    map k | k in r && ToLower(k) !in activeLower && ToLower(k) in SchemaKeys :: r[k]
  }

  /** The custom fields of a row after routing: the active ones, trimmed. */
  function RoutedFields(r: map<string, JsValue>, activeLower: set<string>): map<string, string> {
    map k | k in r && ToLower(k) in activeLower :: SafeTrim(r[k])
  }

  /** The manual mapping of a parsed `fieldMapping`: an object's entries by lower-cased key, nothing otherwise. */
  function ManualOf(parsed: JsValue): map<string, JsValue> {
    if parsed.Obj? then Normalized(parsed.entries, Lowered, Raw) else map[]
  }

  /** Every sheet row normalized, routed and processed, in order. */
  function Processed(sheet: seq<seq<(string, JsValue)>>, manual: map<string, JsValue>, activeLower: set<string>): (ps: seq<ImportRow>)
    ensures |ps| == |sheet|
  {
    if sheet == [] then []
    else Processed(sheet[..|sheet| - 1], manual, activeLower) + [ProcessOne(sheet[|sheet| - 1], manual, activeLower)]
  }

  /** The `i`th processed row is the `i`th sheet row normalized, routed and processed. */
  lemma {:induction false} ProcessedAt(sheet: seq<seq<(string, JsValue)>>, manual: map<string, JsValue>, activeLower: set<string>, i: nat)
    requires i < |sheet|
    ensures Processed(sheet, manual, activeLower)[i] == ProcessOne(sheet[i], manual, activeLower)
  {
    var init := sheet[..|sheet| - 1];
    if i < |sheet| - 1 {
      ProcessedAt(init, manual, activeLower, i);
      assert init[i] == sheet[i];
    }
  }

  /** One sheet row normalized, routed and processed. */
  function ProcessOne(entries: seq<(string, JsValue)>, manual: map<string, JsValue>, activeLower: set<string>): ImportRow {
    var n := Normalized(entries, KeyOf(manual), Raw);
    ProcessRow(n, RoutedRow(n, activeLower), RoutedFields(n, activeLower))
  }

  /** A row can be imported iff it has both a name and a phone. */
  predicate IsValid(p: ImportRow) {
    p.customerName != "" && p.ContactNumber != ""
  }

  /** The valid rows and the invalid rows, each in order: an exact partition of the processed rows. */
  function Partition(rows: seq<ImportRow>): (r: (seq<ImportRow>, seq<ImportRow>))
    ensures |r.0| + |r.1| == |rows|
    ensures forall p :: p in r.0 <==> p in rows && IsValid(p)
    ensures forall p :: p in r.1 <==> p in rows && !IsValid(p)
  {
    if rows == [] then ([], [])
    else
      var rest := Partition(rows[1..]);
      assert forall p :: p in rows <==> p == rows[0] || p in rows[1..];
      if IsValid(rows[0]) then ([rows[0]] + rest.0, rest.1) else (rest.0, [rows[0]] + rest.1)
  }

  // ---------------------------------------------------------------- import loop

  /** The phones known before row `n`: those in the database and those of rows imported earlier. */
  function Known(rows: seq<ImportRow>, accepted: nat -> bool, db: set<string>, n: nat): set<string>
    requires n <= |rows|
  {
    if n == 0 then db
    else Known(rows, accepted, db, n - 1) + (if accepted(n - 1) && rows[n - 1].ContactNumber != "" then {rows[n - 1].ContactNumber} else {})
  }

  /** The rows among the first `n` reported as duplicates: their phone was known when they were reached. */
  function Duplicates(rows: seq<ImportRow>, accepted: nat -> bool, db: set<string>, n: nat): (r: seq<ImportRow>)
    requires n <= |rows|
    ensures |r| <= n
  {
    if n == 0 then []
    else
      var p := rows[n - 1];
      Duplicates(rows, accepted, db, n - 1)
      + (if p.ContactNumber != "" && p.ContactNumber in Known(rows, accepted, db, n - 1) then [p] else [])
  }

  /** A phone is known before row `n` iff it is in the database or an earlier row with it was imported. */
  lemma {:induction false} KnownMeaning(rows: seq<ImportRow>, accepted: nat -> bool, db: set<string>, n: nat, phone: string)
    requires n <= |rows| && phone != ""
    ensures phone in Known(rows, accepted, db, n) <==>
      phone in db || exists j :: 0 <= j < n && accepted(j) && rows[j].ContactNumber == phone
  {
    if n > 0 {
      KnownMeaning(rows, accepted, db, n - 1, phone);
    }
  }

  /** The summary the import reports. */
  datatype Tally = Tally(imported: seq<ImportRow>, duplicates: seq<ImportRow>, failed: seq<ImportRow>)

  /**
   * The insert loop over the valid rows. A row whose phone is already known
   * is reported as a duplicate and still inserted; `accepted(i)` is whether
   * the database accepted row `i`; the phone of an inserted row becomes known.
   */
  method ImportLoop(valid: seq<ImportRow>, dbPhones: set<string>, accepted: nat -> bool)
    returns (t: Tally, known: set<string>)
    ensures t.imported == Accepted(valid, accepted, |valid|)
    ensures t.failed == Refused(valid, accepted, |valid|)
    ensures t.duplicates == Duplicates(valid, accepted, dbPhones, |valid|)
    ensures known == Known(valid, accepted, dbPhones, |valid|)
    ensures |t.imported| + |t.failed| == |valid|
  {
    var imported: seq<ImportRow> := [];
    var duplicates: seq<ImportRow> := [];
    var failed: seq<ImportRow> := [];
    known := dbPhones;
    for i := 0 to |valid|
      invariant imported == Accepted(valid, accepted, i)
      invariant failed == Refused(valid, accepted, i)
      invariant duplicates == Duplicates(valid, accepted, dbPhones, i)
      invariant known == Known(valid, accepted, dbPhones, i)
    {
      var row := valid[i];
      if row.ContactNumber != "" && row.ContactNumber in known {
        duplicates := duplicates + [row];
      }
      if accepted(i) {
        imported := imported + [row];
        if row.ContactNumber != "" {
          known := known + {row.ContactNumber};
        }
      } else {
        failed := failed + [row];
      }
    }
    AcceptedAndRefused(valid, accepted, |valid|);
    t := Tally(imported, duplicates, failed);
  }

  /**
   * Duplicates are reported, not skipped: a valid row with a phone already in
   * the database is both a duplicate and, when the insert succeeds, imported;
   * a second row with the phone of an imported row is a duplicate too.
   */
  lemma DuplicatesStillImported(p: ImportRow, q: ImportRow, dbPhones: set<string>)
    requires IsValid(p) && IsValid(q) && p.ContactNumber == q.ContactNumber && p.ContactNumber !in dbPhones
    ensures var accepted := (i: nat) => true;
      && Accepted([p, q], accepted, 2) == [p, q]
      && Duplicates([p, q], accepted, dbPhones, 2) == [q]
  {
    var accepted := (i: nat) => true;
    assert Known([p, q], accepted, dbPhones, 1) == dbPhones + {p.ContactNumber};
  }

  /** The City written for an imported customer: the row's, else the importing administrator's, else "". */
  function CreatedCity(p: ImportRow, admin: Admin): (r: string)
    ensures "City" in p.text && p.text["City"] != "" ==> r == p.text["City"]
    ensures !("City" in p.text && p.text["City"] != "") && admin.city.Some? && admin.city.value != "" ==> r == admin.city.value
    ensures !("City" in p.text && p.text["City"] != "") && !(admin.city.Some? && admin.city.value != "") ==> r == ""
  {
    if "City" in p.text && p.text["City"] != "" then p.text["City"]
    else if admin.city.Some? && admin.city.value != "" then admin.city.value
    else ""
  }

  // ---------------------------------------------------------------- master-record caches

  /**
   * A get-or-create helper with its cache: `ids` is the cache from trimmed
   * name to id, `table` the master table it reads and writes.
   */
  class NameCache {
    var ids: map<string, string>
    var table: map<string, string>

    /** A blank name is never cached. */
    ghost predicate Valid()
      reads this
    {
      "" !in ids
    }

    /**
     * Every cached id is the table's id for that name. A fresh cache has this;
     * a cache kept across requests loses it once the table is renamed or
     * pruned behind it.
     */
    ghost predicate Coherent()
      reads this
    {
      forall n :: n in ids ==> n in table && ids[n] == table[n]
    }

    constructor (table0: map<string, string>)
      ensures Valid() && Coherent() && ids == map[] && table == table0
    {
      ids := map[];
      table := table0;
    }

    /**
     * `getOrCreate(name)`: null for a blank name with nothing touched; a
     * cached id as is, without reading the table; else the table's id, or a
     * newly created record (`freshId`), which is then cached.
     */
    method GetOrCreate(raw: string, freshId: string) returns (id: Option<string>)
      requires Valid()
      modifies this
      ensures Valid()
      ensures old(Coherent()) ==> Coherent()
      ensures Trim(raw) == "" ==> id.None? && ids == old(ids) && table == old(table)
      ensures Trim(raw) != "" ==> id.Some? && ids == old(ids)[Trim(raw) := id.value]
      ensures Trim(raw) in old(ids) ==> id == Some(old(ids)[Trim(raw)]) && table == old(table)
      ensures Trim(raw) != "" && Trim(raw) !in old(ids) && Trim(raw) in old(table) ==>
        id == Some(old(table)[Trim(raw)]) && table == old(table)
      ensures Trim(raw) != "" && Trim(raw) !in old(ids) && Trim(raw) !in old(table) ==>
        id == Some(freshId) && table == old(table)[Trim(raw) := freshId]
    {
      var name := Trim(raw);
      if name == "" {
        return None;
      }
      if name in ids {
        return Some(ids[name]);
      }
      if name in table {
        ids := ids[name := table[name]];
        return Some(table[name]);
      }
      table := table[name := freshId];
      ids := ids[name := freshId];
      return Some(freshId);
    }
  }

  /** Looking the same name up twice gives the same id and creates at most one record. */
  method RepeatedLookup(table0: map<string, string>, name: string, fresh1: string, fresh2: string)
    returns (first: Option<string>, second: Option<string>, created: nat)
    ensures first == second
    ensures created <= 1
    ensures Trim(name) == "" ==> first.None? && created == 0
  {
    var cache := new NameCache(table0);
    first := cache.GetOrCreate(name, fresh1);
    second := cache.GetOrCreate(name, fresh2);
    created := |cache.table.Keys - table0.Keys|;
    assert cache.table.Keys - table0.Keys <= {Trim(name)};
    if Trim(name) == "" { assert cache.table == table0; }
  }

  // ---------------------------------------------------------------- the handler

  /** `sheet.map(normalizeKeys)` followed by `normalized.map(...)`: every row processed, in order. */
  method ProcessRows(sheet: seq<seq<(string, JsValue)>>, manual: map<string, JsValue>, activeLower: set<string>)
    returns (processed: seq<ImportRow>)
    ensures processed == Processed(sheet, manual, activeLower)
  {
    processed := [];
    for i := 0 to |sheet|
      invariant processed == Processed(sheet[..i], manual, activeLower)
    {
      var normalized := NormalizeKeys(sheet[i], manual);
      var row, fields := RouteKeys(normalized, activeLower);
      ProcessedStep(sheet, manual, activeLower, i, normalized, row, fields);
      processed := processed + [ProcessRow(normalized, row, fields)];
    }
    assert sheet[..|sheet|] == sheet;
  }

  lemma ProcessedStep(sheet: seq<seq<(string, JsValue)>>, manual: map<string, JsValue>, activeLower: set<string>, i: nat,
                      normalized: map<string, JsValue>, row: map<string, JsValue>, fields: map<string, string>)
    requires i < |sheet| && normalized == Normalized(sheet[i], KeyOf(manual), Raw)
    requires row == RoutedRow(normalized, activeLower) && fields == RoutedFields(normalized, activeLower)
    ensures Processed(sheet[..i + 1], manual, activeLower) == Processed(sheet[..i], manual, activeLower) + [ProcessRow(normalized, row, fields)]
  {
    assert sheet[..i + 1][..i] == sheet[..i];
  }

  /** `JSON.parse(fieldMapping)` succeeded and `Object.keys` of the result does not throw. */
  predicate MappingParses(parsed: Option<JsValue>) {
    parsed.Some? && !parsed.value.Null? && !parsed.value.Undefined?
  }

  /** Counts reported by an accepted import. */
  datatype Summary = Summary(imported: nat, duplicates: nat, invalid: nat, failed: nat)

  /**
   * `importCustomers`: 400 without a field mapping, for a mapping that does
   * not parse (or parses to null), without a file, for an empty sheet, and
   * when no row is valid; otherwise the counts of the insert loop.
   */
  method ImportCustomers(fieldMapping: JsValue, sheet: Option<seq<seq<(string, JsValue)>>>, parse: Parser,
                         activeLower: set<string>, dbPhones: set<string>, accepted: nat -> bool)
    returns (r: Outcome<Summary>)
    ensures !Truthy(fieldMapping) ==> r == Fail(400)
    ensures r.Fail? ==> r.status == 400
    ensures Truthy(fieldMapping) && !MappingParses(parse(ToJsString(fieldMapping))) ==> r == Fail(400)
    ensures sheet.None? || sheet == Some([]) ==> r.Fail?
    ensures Truthy(fieldMapping) && MappingParses(parse(ToJsString(fieldMapping))) && sheet.Some? && sheet.value != [] ==>
      var valid := Partition(Processed(sheet.value, ManualOf(parse(ToJsString(fieldMapping)).value), activeLower)).0;
      (r.Fail? <==> valid == [])
      && (r.Done? ==> r.value.imported == |Accepted(valid, accepted, |valid|)|
                      && r.value.duplicates == |Duplicates(valid, accepted, dbPhones, |valid|)|
                      && r.value.failed == |Refused(valid, accepted, |valid|)|)
    ensures r.Done? ==> sheet.Some? && r.value.imported + r.value.failed + r.value.invalid == |sheet.value|
  {
    if !Truthy(fieldMapping) {
      return Fail(400);
    }
    var parsed := parse(ToJsString(fieldMapping));
    if parsed.None? || parsed.value.Null? || parsed.value.Undefined? {
      return Fail(400);
    }
    var manual := map[];
    if parsed.value.Obj? {
      manual := ManualMap(parsed.value.entries);
    }
    assert manual == ManualOf(parsed.value);
    if sheet.None? || sheet.value == [] {
      return Fail(400);
    }
    var processed := ProcessRows(sheet.value, manual, activeLower);
    var parts := Partition(processed);
    if parts.0 == [] {
      return Fail(400);
    }
    var t, _ := ImportLoop(parts.0, dbPhones, accepted);
    r := Done(Summary(|t.imported|, |t.duplicates|, |parts.1|, |t.failed|));
  }
}
