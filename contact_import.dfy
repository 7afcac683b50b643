/**
 * The contact spreadsheet import. It differs from the customer import in
 * its phone cleaning (a leading "91" and leading zeros are stripped), its
 * separator set, the rewriting of phone-like columns during header
 * normalisation, the City precedence (the importing administrator's city
 * wins), the duplicate test (numbers already stored only) and the lifetime
 * of its campaign cache (it outlives the request).
 */
module ContactImport {
  import opened Wrappers
  import opened Strings
  import opened Js
  import opened Accounts
  import opened Agent
  import opened Sheets
  import CustomerImport

  // ---------------------------------------------------------------- phone numbers

  /** `.replace(/^91/, "")`: one leading "91" removed. */
  function StripCountryCode(d: string): (r: string)
    ensures StartsWith(d, "91") ==> r == d[2..]
    ensures !StartsWith(d, "91") ==> r == d
    ensures |r| <= |d| && r == d[|d| - |r|..]
  {
    if |d| >= 2 && d[..2] == "91" then d[2..] else d
  }

  /** `.replace(/^0+/, "")`: all leading zeros removed. */
  function StripZeros(d: string): (r: string)
    ensures r == [] || r[0] != '0'
    ensures |r| <= |d| && r == d[|d| - |r|..]
    ensures forall i :: 0 <= i < |d| - |r| ==> d[i] == '0'
  {
    if d != [] && d[0] == '0' then StripZeros(d[1..]) else d
  }

  lemma SuffixOfDigits(d: string, r: string)
    requires forall i :: 0 <= i < |d| ==> IsDigit(d[i])
    requires |r| <= |d| && r == d[|d| - |r|..]
    ensures forall i :: 0 <= i < |r| ==> IsDigit(r[i])
  {
    assert forall i :: 0 <= i < |r| ==> r[i] == d[|d| - |r| + i];
  }

  /** The digits of a number without one leading "91" and without leading zeros. */
  function CleanDigits(d: string): (r: string)
    requires forall i :: 0 <= i < |d| ==> IsDigit(d[i])
    ensures forall i :: 0 <= i < |r| ==> IsDigit(r[i])
    ensures r == [] || r[0] != '0'
  {
    var c := StripCountryCode(d);
    SuffixOfDigits(d, c);
    var r := StripZeros(c);
    SuffixOfDigits(c, r);
    r
  }

  /** `cleanNumber(num)`: "" for a falsy value, else the cleaned digits of its text. */
  function CleanNumber(v: JsValue): (r: string)
    ensures forall i :: 0 <= i < |r| ==> IsDigit(r[i])
    ensures r == [] || r[0] != '0'
    ensures !Truthy(v) ==> r == ""
  {
    if !Truthy(v) then "" else CleanDigits(DigitsOnly(ToJsString(v)))
  }

  /** A non-empty digit string cleans as its digits do. */
  lemma CleanNumberOfDigits(d: string)
    requires d != [] && forall i :: 0 <= i < |d| ==> IsDigit(d[i])
    ensures CleanNumber(Str(d)) == CleanDigits(d)
  {
    DigitsOnlyOfDigits(d);
  }

  /** A number written with "91" in front loses exactly those two digits, then its leading zeros. */
  lemma CleanDigitsWithCode(w: string)
    requires StartsWith(w, "91") && forall i :: 0 <= i < |w| ==> IsDigit(w[i])
    ensures CleanDigits(w) == StripZeros(w[2..])
  {
  }

  /** A string starting with anything but '9' has no country code. */
  lemma NoCodeUnlessNine(z: string)
    requires z != [] && z[0] != '9'
    ensures !StartsWith(z, "91")
  {
    if |z| >= 2 {
      assert z[..2][0] == z[0];
    }
  }

  /** A number written with leading zeros loses them. */
  lemma CleanDigitsWithZero(z: string)
    requires z != [] && z[0] == '0' && forall i :: 0 <= i < |z| ==> IsDigit(z[i])
    ensures CleanDigits(z) == StripZeros(z[1..])
  {
    NoCodeUnlessNine(z);
  }

  /**
   * The national forms of a mobile number that neither begins with "0" nor
   * with "91": the bare number, "91" in front, and "0" in front all clean
   * to the bare number.
   */
  lemma CleanNumberOfNationalForms(d: string)
    requires d != [] && forall i :: 0 <= i < |d| ==> IsDigit(d[i])
    requires d[0] != '0' && !StartsWith(d, "91")
    ensures CleanNumber(Str(d)) == d
    ensures CleanNumber(Str("91" + d)) == d
    ensures CleanNumber(Str("0" + d)) == d
  {
    CleanNumberOfDigits(d);
    assert StripCountryCode(d) == d;
    NationalFormWithCode(d);
    NationalFormWithZero(d);
  }

  lemma NationalFormWithCode(d: string)
    requires d != [] && forall i :: 0 <= i < |d| ==> IsDigit(d[i])
    requires d[0] != '0'
    ensures CleanNumber(Str("91" + d)) == d
  {
    var w := "91" + d;
    assert w[..2] == "91" && w[2..] == d;
    CleanNumberOfDigits(w);
    CleanDigitsWithCode(w);
  }

  lemma NationalFormWithZero(d: string)
    requires d != [] && forall i :: 0 <= i < |d| ==> IsDigit(d[i])
    requires d[0] != '0'
    ensures CleanNumber(Str("0" + d)) == StripZeros(d)
  {
    var z := "0" + d;
    assert z[0] == '0' && z[1..] == d;
    DigitsConcat("0", d);
    CleanNumberOfDigits(z);
    CleanDigitsWithZero(z);
  }

  /** Digits written after digits make digits. */
  lemma DigitsConcat(p: string, d: string)
    requires forall i :: 0 <= i < |p| ==> IsDigit(p[i])
    requires forall i :: 0 <= i < |d| ==> IsDigit(d[i])
    ensures forall i :: 0 <= i < |p + d| ==> IsDigit((p + d)[i])
  {
  }

  /** The separators of this `extractNumbers`: , / | ; : - */
  const PhoneSeparators: seq<char> := [',', '/', '|', ';', ':', '-']

  /** Each piece of the raw text, cleaned. */
  function Cleaned(pieces: seq<string>): (r: seq<string>)
    ensures |r| == |pieces|
    ensures forall i :: 0 <= i < |r| ==> r[i] == CleanNumber(Str(pieces[i]))
  {
    seq(|pieces|, i requires 0 <= i < |pieces| => CleanNumber(Str(pieces[i])))
  }

  /** The numbers `extractNumbers` joins: cleaned pieces of at least ten digits, first occurrences only. */
  function ExtractedList(v: JsValue): (r: seq<string>)
    ensures forall i :: 0 <= i < |r| ==> |r[i]| >= 10 && r[i][0] != '0' && forall j :: 0 <= j < |r[i]| ==> IsDigit(r[i][j])
    ensures forall i, j :: 0 <= i < j < |r| ==> r[i] != r[j]
    ensures !Truthy(v) ==> r == []
    ensures Truthy(v) ==> forall x :: x in r <==> x in Cleaned(Split(ToJsString(v), PhoneSeparators)) && |x| >= 10
    ensures Truthy(v) ==> forall i, j :: 0 <= i < j < |r| ==> IndexOf(LongPieces(v), r[i]) < IndexOf(LongPieces(v), r[j])
  {
    if !Truthy(v) then []
    else
      var pieces := Split(ToJsString(v), PhoneSeparators);
      LongNumbers(pieces);
      LongDistinct(Cleaned(pieces));
      Dedup(LongPieces(v))
  }

  /** The cleaned pieces of at least ten digits, in order, repeats kept. */
  function LongPieces(v: JsValue): seq<string> {
    LongOnly(Cleaned(Split(ToJsString(v), PhoneSeparators)))
  }

  /** The first extracted number is the first long cleaned piece. */
  lemma ExtractedFirst(v: JsValue)
    requires Truthy(v) && LongPieces(v) != []
    ensures ExtractedList(v) != [] && ExtractedList(v)[0] == LongPieces(v)[0]
  {
    DedupFirst(LongPieces(v));
  }

  /** The long cleaned pieces are numbers of ten or more digits, none starting with "0". */
  lemma LongNumbers(pieces: seq<string>)
    ensures var r := Dedup(LongOnly(Cleaned(pieces)));
      forall i :: 0 <= i < |r| ==> |r[i]| >= 10 && r[i][0] != '0' && forall j :: 0 <= j < |r[i]| ==> IsDigit(r[i][j])
  {
    var cleaned := Cleaned(pieces);
    var r := Dedup(LongOnly(cleaned));
    forall i | 0 <= i < |r|
      ensures |r[i]| >= 10 && r[i][0] != '0' && forall j :: 0 <= j < |r[i]| ==> IsDigit(r[i][j])
    {
      assert r[i] in LongOnly(cleaned);
      var k :| 0 <= k < |cleaned| && cleaned[k] == r[i];
    }
  }

  /** `extractNumbers(raw)`. */
  function ExtractNumbers(v: JsValue): string {
    Join(ExtractedList(v), ",")
  }

  /** A string of digits is a single piece, whichever importer's separators are used. */
  lemma ExtractOfDigits(d: string)
    requires d != [] && forall i :: 0 <= i < |d| ==> IsDigit(d[i])
    ensures ExtractedList(Str(d)) == (if |CleanNumber(Str(d))| >= 10 then [CleanNumber(Str(d))] else [])
  {
    DigitsAreOnePiece(d);
    assert Cleaned([d]) == [CleanNumber(Str(d))];
    OneLongOnly(CleanNumber(Str(d)));
    if |CleanNumber(Str(d))| >= 10 {
      OneDedup(CleanNumber(Str(d)));
    }
  }

  lemma DigitsAreOnePiece(d: string)
    requires forall i :: 0 <= i < |d| ==> IsDigit(d[i])
    ensures Split(ToJsString(Str(d)), PhoneSeparators) == [d]
  {
    assert forall i :: 0 <= i < |d| ==> d[i] !in PhoneSeparators;
    SplitWithoutSeparators(d, PhoneSeparators);
  }

  lemma OneLongOnly(x: string)
    ensures LongOnly([x]) == if |x| >= 10 then [x] else []
  {
    assert [x][1..] == [];
  }

  lemma OneDedup(x: string)
    ensures Dedup([x]) == [x]
  {
    assert [x][..0] == [];
  }

  /**
   * A ten-digit number that happens to begin with "91" loses those digits
   * as if they were a country code, and is then dropped as too short.
   */
  lemma TenDigitsStartingWith91Dropped(d: string)
    requires |d| == 10 && forall i :: 0 <= i < |d| ==> IsDigit(d[i])
    requires StartsWith(d, "91")
    ensures ExtractNumbers(Str(d)) == ""
  {
    DigitsOnlyOfDigits(d);
    ExtractOfDigits(d);
  }

  /**
   * The row pass extracts numbers from a value normalisation already
   * extracted: a number written with its "91" prefix whose ten national
   * digits again begin with "91" survives the first extraction and is lost
   * in the second.
   */
  lemma SecondExtractionLosesNumber(d: string)
    requires |d| == 10 && forall i :: 0 <= i < |d| ==> IsDigit(d[i])
    requires StartsWith(d, "91")
    ensures ExtractNumbers(Str("91" + d)) == d
    ensures ExtractNumbers(Str(ExtractNumbers(Str("91" + d)))) == ""
  {
    FirstExtractionKeepsNumber(d);
    TenDigitsStartingWith91Dropped(d);
  }

  /** "91" followed by ten digits not starting with "0" extracts to the ten digits. */
  lemma FirstExtractionKeepsNumber(d: string)
    requires |d| == 10 && forall i :: 0 <= i < |d| ==> IsDigit(d[i])
    requires d[0] != '0'
    ensures ExtractNumbers(Str("91" + d)) == d
  {
    var w := "91" + d;
    assert w[..2] == "91" && w[2..] == d;
    DigitsConcat("91", d);
    NationalFormWithCode(d);
    ExtractOfDigits(w);
    assert ExtractedList(Str(w)) == [d];
    assert Join([d], ",") == d;
  }

  // ---------------------------------------------------------------- headers

  /** The built-in header map, by trimmed lower-case header. */
  const KeyMap: map<string, string> := map[
    "contact no" := "ContactNo", "contactno" := "ContactNo", "mobile" := "ContactNo",
    "mobile number" := "ContactNo", "phone" := "ContactNo", "phone number" := "ContactNo",
    "fullname" := "Name", "full name" := "Name", "contact name" := "Name", "person name" := "Name",
    "email" := "Email", "e-mail" := "Email", "mail" := "Email",
    "city" := "City", "location" := "Location", "address" := "Address",
    "company" := "CompanyName", "company name" := "CompanyName",
    "industry" := "ContactIndustry", "functional area" := "ContactFunctionalArea",
    "notes" := "Notes", "facilities" := "Facilities", "reference id" := "ReferenceId", "status" := "Status",
    "campaign" := "Campaign", "campaign name" := "Campaign", "campaign title" := "Campaign",
    "contact type" := "ContactType", "lead type" := "ContactType", "type" := "ContactType"]

  /** The headers whose values are replaced by their extracted numbers. */
  const PhoneHeaders: set<string> := {"contactno", "contact number", "mobile", "mobile number", "phone", "phone number"}

  /** `key.trim().toLowerCase()`. */
  function Folded(key: string): string { ToLower(Trim(key)) }

  /** The mapped header: a truthy manual mapping first, then the built-in map, else the header unchanged. */
  function FinalKey(key: string, manual: map<string, JsValue>): string {
    var lower := Folded(key);
    if lower in manual && Truthy(manual[lower]) then ToJsString(manual[lower])
    else if lower in KeyMap then KeyMap[lower]
    else key
  }

  /** The header mapping of one import. */
  function KeyOf(manual: map<string, JsValue>): string -> string {
    k => FinalKey(k, manual)
  }

  /** The value written for a header: its extracted numbers for a phone-like header, else the value itself. */
  function ValueOf(key: string, v: JsValue): JsValue {
    if Folded(key) in PhoneHeaders then Str(ExtractNumbers(v)) else v
  }

  /**
   * A "contact number" header is rewritten as a phone column but, having no
   * entry in the built-in map, keeps its own name unless mapped by hand.
   */
  lemma ContactNumberHeaderKeepsName(key: string, v: JsValue, manual: map<string, JsValue>)
    requires Folded(key) == "contact number"
    requires !("contact number" in manual && Truthy(manual["contact number"]))
    ensures FinalKey(key, manual) == key
    ensures ValueOf(key, v) == Str(ExtractNumbers(v))
  {
    ContactNumberUnmapped();
    var lower := Folded(key);
    assert !(lower in manual && Truthy(manual[lower])) && lower !in KeyMap;
    assert lower in PhoneHeaders;
  }

  lemma ContactNumberUnmapped()
    ensures "contact number" !in KeyMap && "contact number" in PhoneHeaders
  {
  }

  /** `normalizeKeys(row, manualMap)`: one pass over the entries, writing each converted value under its mapped key. */
  method NormalizeKeys(row: Entries, manual: map<string, JsValue>) returns (out: map<string, JsValue>)
    ensures out == Normalized(row, KeyOf(manual), ValueOf)
  {
    var keyOf := KeyOf(manual);
    out := map[];
    for i := 0 to |row|
      invariant out == Normalized(row[..i], keyOf, ValueOf)
    {
      assert row[..i + 1][..i] == row[..i];
      out := out[keyOf(row[i].0) := ValueOf(row[i].0, row[i].1)];
    }
    assert row[..|row|] == row;
  }

  /** `for (const key of Object.keys(parsed)) manualMap[key.trim().toLowerCase()] = parsed[key]`. */
  method ManualMap(entries: Entries) returns (manual: map<string, JsValue>)
    ensures manual == Normalized(entries, Folded, Raw)
  {
    manual := map[];
    for i := 0 to |entries|
      invariant manual == Normalized(entries[..i], Folded, Raw)
    {
      assert entries[..i + 1][..i] == entries[..i];
      manual := manual[Folded(entries[i].0) := Raw(entries[i].0, entries[i].1)];
    }
    assert entries[..|entries|] == entries;
  }

  // ---------------------------------------------------------------- rows

  /** A contact ready to insert. */
  datatype ContactRow = ContactRow(
    rest: map<string, JsValue>,
    ContactNo: string,
    Campaign: string,
    ContactType: string,
    City: string,
    Address: string)

  /** `row[k]` of a normalised row. */
  function At(row: map<string, JsValue>, k: string): JsValue {
    if k in row then row[k] else Undefined
  }

  /** `safeTrim(v)` on a truthy value, rendered as text: strings are trimmed. */
  function SafeText(v: JsValue): string {
    if v.Str? then Trim(v.s) else ToJsString(v)
  }

  /** `admin.city || row.City || ""`: the importing administrator's city wins. */
  function ContactCity(admin: Admin, row: map<string, JsValue>): (r: string)
    ensures admin.city.Some? && admin.city.value != "" ==> r == admin.city.value
    ensures (admin.city.None? || admin.city.value == "") && Truthy(At(row, "City")) ==> r == ToJsString(At(row, "City"))
    ensures (admin.city.None? || admin.city.value == "") && !Truthy(At(row, "City")) ==> r == ""
  {
    if admin.city.Some? && admin.city.value != "" then admin.city.value
    else if Truthy(At(row, "City")) then ToJsString(At(row, "City"))
    else ""
  }

  /** The contact built from a normalised row, or None when it lacks ContactNo or Name. */
  function Prepare(row: map<string, JsValue>, admin: Admin): (r: Option<ContactRow>)
    ensures r.Some? <==> Truthy(At(row, "ContactNo")) && Truthy(At(row, "Name"))
    ensures r.Some? ==> r.value.ContactNo == ExtractNumbers(At(row, "ContactNo")) && r.value.City == ContactCity(admin, row)
  {
    if !Truthy(At(row, "ContactNo")) || !Truthy(At(row, "Name")) then None
    else
      Some(ContactRow(
        row,
        ExtractNumbers(At(row, "ContactNo")),
        if Truthy(At(row, "Campaign")) then SafeText(At(row, "Campaign")) else "",
        if Truthy(At(row, "ContactType")) then SafeText(At(row, "ContactType")) else "",
        ContactCity(admin, row),
        if Truthy(At(row, "Address")) then ToJsString(At(row, "Address")) else ""))
  }

  /** The row filter of one import. */
  function PrepareFor(admin: Admin): map<string, JsValue> -> Option<ContactRow> {
    row => Prepare(row, admin)
  }

  /**
   * A row that passes the filter keeps its ContactNo only through a second
   * extraction: a row whose normalised ContactNo is ten digits beginning
   * with "91" is not skipped, yet its contact is prepared with an empty
   * ContactNo.
   */
  lemma KeptRowLosesItsNumber(row: map<string, JsValue>, admin: Admin, d: string)
    requires |d| == 10 && (forall i :: 0 <= i < |d| ==> IsDigit(d[i])) && StartsWith(d, "91")
    requires At(row, "ContactNo") == Str(d) && Truthy(At(row, "Name"))
    ensures Prepare(row, admin).Some? && Prepare(row, admin).value.ContactNo == ""
  {
    TenDigitsStartingWith91Dropped(d);
  }

  /** The customer import lets the row's City win; the contact import lets the administrator's win. */
  lemma CityPrecedenceDiffers(p: CustomerImport.ImportRow, row: map<string, JsValue>, admin: Admin)
    requires admin.city.Some? && admin.city.value != ""
    requires "City" in p.text && p.text["City"] != "" && p.text["City"] != admin.city.value
    requires At(row, "City") == Str(p.text["City"])
    ensures CustomerImport.CreatedCity(p, admin) == p.text["City"]
    ensures ContactCity(admin, row) == admin.city.value
    ensures CustomerImport.CreatedCity(p, admin) != ContactCity(admin, row)
  {
  }

  // ---------------------------------------------------------------- partition and inserts

  /** A contact whose number is already stored (the empty number is never looked up). */
  predicate Stored(c: ContactRow, stored: set<string>) {
    c.ContactNo != "" && c.ContactNo in stored
  }

  /** `uniqueContacts`: the contacts whose number is not stored, in order. */
  function Unique(cs: seq<ContactRow>, stored: set<string>): (r: seq<ContactRow>)
    ensures forall c :: c in r <==> c in cs && !Stored(c, stored)
  {
    if cs == [] then []
    else (if Stored(cs[0], stored) then [] else [cs[0]]) + Unique(cs[1..], stored)
  }

  /** `duplicateContacts` before the inserts: the contacts whose number is stored, in order. */
  function Known(cs: seq<ContactRow>, stored: set<string>): (r: seq<ContactRow>)
    ensures forall c :: c in r <==> c in cs && Stored(c, stored)
  {
    if cs == [] then []
    else (if Stored(cs[0], stored) then [cs[0]] else []) + Known(cs[1..], stored)
  }

  /** The two filters split the contacts exactly. */
  lemma {:induction false} PartitionExact(cs: seq<ContactRow>, stored: set<string>)
    ensures |Unique(cs, stored)| + |Known(cs, stored)| == |cs|
  {
    if cs != [] {
      PartitionExact(cs[1..], stored);
    }
  }

  /** Two rows of one file with the same new number are both treated as unique. */
  lemma RepeatsWithinFileNotCaught(c1: ContactRow, c2: ContactRow, stored: set<string>)
    requires c1.ContactNo == c2.ContactNo && c1.ContactNo !in stored
    ensures Unique([c1, c2], stored) == [c1, c2]
    ensures Known([c1, c2], stored) == []
  {
    assert [c1, c2][1..] == [c2] && [c2][1..] == [];
    assert !Stored(c1, stored) && !Stored(c2, stored);
    assert Unique([c2], stored) == [c2] + Unique([], stored);
    assert Known([c2], stored) == Known([], stored);
  }

  /** The insert loop: a refused insert is appended to the duplicates. */
  method InsertContacts(unique: seq<ContactRow>, duplicates: seq<ContactRow>, accepted: nat -> bool)
    returns (inserted: seq<ContactRow>, skipped: seq<ContactRow>)
    ensures inserted == Accepted(unique, accepted, |unique|)
    ensures skipped == duplicates + Refused(unique, accepted, |unique|)
    ensures |inserted| + |skipped| == |unique| + |duplicates|
  {
    inserted := [];
    skipped := duplicates;
    for i := 0 to |unique|
      invariant inserted == Accepted(unique, accepted, i)
      invariant skipped == duplicates + Refused(unique, accepted, i)
    {
      if accepted(i) {
        inserted := inserted + [unique[i]];
      } else {
        skipped := skipped + [unique[i]];
      }
    }
    AcceptedAndRefused(unique, accepted, |unique|);
  }

  /**
   * The campaign cache outlives the request and is never told of renames:
   * once campaign "X" (id `oldId`) is renamed to "Y" in the table, a later
   * import naming "X" still answers `oldId` and creates nothing, though the
   * table no longer holds "X".
   */
  method RenamedCampaignKeepsOldId(oldId: string, freshId: string) returns (id: Option<string>, created: bool)
    ensures id == Some(oldId)
    ensures !created
  {
    var campaigns := new CustomerImport.NameCache(map["X" := oldId]);
    TrimmedIsFixed("X");
    var first := campaigns.GetOrCreate("X", freshId);
    campaigns.table := map["Y" := oldId];
    var before := campaigns.table;
    id := campaigns.GetOrCreate("X", freshId);
    created := campaigns.table != before;
  }

  /**
   * The row loop: rows lacking ContactNo or Name are skipped; for each kept
   * row with a campaign, the campaign is got or created through the cache.
   */
  method PrepareContacts(rows: seq<map<string, JsValue>>, admin: Admin, campaigns: CustomerImport.NameCache, freshIds: nat -> string)
    returns (finalContacts: seq<ContactRow>)
    requires campaigns.Valid()
    modifies campaigns
    ensures campaigns.Valid()
    ensures old(campaigns.ids).Keys <= campaigns.ids.Keys
    ensures finalContacts == Kept(rows, PrepareFor(admin))
  {
    var prepare := PrepareFor(admin);
    finalContacts := [];
    for i := 0 to |rows|
      invariant campaigns.Valid()
      invariant old(campaigns.ids).Keys <= campaigns.ids.Keys
      invariant finalContacts == Kept(rows[..i], prepare)
    {
      assert rows[..i + 1][..i] == rows[..i];
      var p := prepare(rows[i]);
      assert Kept(rows[..i + 1], prepare) == if p.Some? then finalContacts + [p.value] else finalContacts;
      if p.Some? {
        if Truthy(At(rows[i], "Campaign")) {
          var _ := campaigns.GetOrCreate(SafeText(At(rows[i], "Campaign")), freshIds(i));
        }
        finalContacts := finalContacts + [p.value];
      }
    }
    assert rows[..|rows|] == rows;
  }

  /** The manual mapping of a parsed `fieldMapping`: an object's entries by folded key, nothing otherwise. */
  function ManualOf(parsed: JsValue): map<string, JsValue> {
    if parsed.Obj? then Normalized(parsed.entries, Folded, Raw) else map[]
  }

  /** `sheetData.map((row) => normalizeKeys(row, manualMap))`. */
  function NormalizedRows(sheet: seq<Entries>, manual: map<string, JsValue>): (rows: seq<map<string, JsValue>>)
    ensures |rows| == |sheet|
  {
    if sheet == [] then []
    else NormalizedRows(sheet[..|sheet| - 1], manual) + [Normalized(sheet[|sheet| - 1], KeyOf(manual), ValueOf)]
  }

  /** The `i`th normalized row is the `i`th sheet row with its keys normalized. */
  lemma {:induction false} NormalizedRowsAt(sheet: seq<Entries>, manual: map<string, JsValue>, i: nat)
    requires i < |sheet|
    ensures NormalizedRows(sheet, manual)[i] == Normalized(sheet[i], KeyOf(manual), ValueOf)
  {
    var init := sheet[..|sheet| - 1];
    if i < |sheet| - 1 {
      NormalizedRowsAt(init, manual, i);
      assert init[i] == sheet[i];
    }
  }

  /** Every sheet row normalized, in order. */
  method NormalizeRows(sheet: seq<Entries>, manual: map<string, JsValue>) returns (normalized: seq<map<string, JsValue>>)
    ensures normalized == NormalizedRows(sheet, manual)
  {
    normalized := [];
    for i := 0 to |sheet|
      invariant normalized == NormalizedRows(sheet[..i], manual)
    {
      var row := NormalizeKeys(sheet[i], manual);
      assert sheet[..i + 1][..i] == sheet[..i];
      normalized := normalized + [row];
    }
    assert sheet[..|sheet|] == sheet;
  }

  /** The counts in the response. */
  datatype ContactSummary = ContactSummary(totalRecords: nat, importedCount: nat, skippedCount: nat)

  /**
   * `importContacts`: the same 400s as the customer import (no mapping, a
   * mapping that does not parse, no file, an empty sheet, no contact
   * left); campaign names are got or created through `campaigns`, a cache
   * that outlives the request and only grows.
   */
  method ImportContacts(campaigns: CustomerImport.NameCache, fieldMapping: JsValue,
                        sheet: Option<seq<Entries>>, parse: Parser, admin: Admin,
                        stored: set<string>, accepted: nat -> bool, freshIds: nat -> string)
    returns (r: Outcome<ContactSummary>)
    requires campaigns.Valid()
    modifies campaigns
    ensures campaigns.Valid()
    ensures old(campaigns.ids).Keys <= campaigns.ids.Keys
    ensures !Truthy(fieldMapping) ==> r == Fail(400)
    ensures r.Fail? ==> r.status == 400
    ensures Truthy(fieldMapping) && !CustomerImport.MappingParses(parse(ToJsString(fieldMapping))) ==> r == Fail(400)
    ensures sheet.None? || sheet == Some([]) ==> r.Fail?
    ensures Truthy(fieldMapping) && CustomerImport.MappingParses(parse(ToJsString(fieldMapping))) && sheet.Some? && sheet.value != [] ==>
      var kept := Kept(NormalizedRows(sheet.value, ManualOf(parse(ToJsString(fieldMapping)).value)), PrepareFor(admin));
      var unique := Unique(kept, stored);
      (r.Fail? <==> kept == [])
      && (r.Done? ==> r.value.totalRecords == |kept|
                      && r.value.importedCount == |Accepted(unique, accepted, |unique|)|
                      && r.value.skippedCount == |Known(kept, stored)| + |Refused(unique, accepted, |unique|)|)
    ensures r.Done? ==> r.value.importedCount + r.value.skippedCount == r.value.totalRecords
    ensures r.Done? ==> sheet.Some? && 0 < r.value.totalRecords <= |sheet.value|
  {
    if !Truthy(fieldMapping) {
      return Fail(400);
    }
    var parsed := parse(ToJsString(fieldMapping));
    if parsed.None? || parsed.value.Null? || parsed.value.Undefined? {
      return Fail(400);
    }
    var manual := map[];
    if parsed.value.Obj? {
      manual := ManualMap(parsed.value.entries);
    }
    if sheet.None? || sheet.value == [] {
      return Fail(400);
    }
    assert manual == ManualOf(parsed.value);
    var normalized := NormalizeRows(sheet.value, manual);
    var finalContacts := PrepareContacts(normalized, admin, campaigns, freshIds);
    if finalContacts == [] {
      return Fail(400);
    }
    var summary := Summarize(finalContacts, stored, accepted);
    r := Done(summary);
  }

  /**
   * The duplicate filter and the inserts over the prepared contacts: every
   * contact is either imported or skipped (already stored, or refused by the
   * database).
   */
  method Summarize(finalContacts: seq<ContactRow>, stored: set<string>, accepted: nat -> bool) returns (s: ContactSummary)
    ensures var unique := Unique(finalContacts, stored);
      s.totalRecords == |finalContacts|
      && s.importedCount == |Accepted(unique, accepted, |unique|)|
      && s.skippedCount == |Known(finalContacts, stored)| + |Refused(unique, accepted, |unique|)|
    ensures s.importedCount + s.skippedCount == s.totalRecords
  {
    var unique := Unique(finalContacts, stored);
    var known := Known(finalContacts, stored);
    PartitionExact(finalContacts, stored);
    var inserted, skipped := InsertContacts(unique, known, accepted);
    s := ContactSummary(|finalContacts|, |inserted|, |skipped|);
  }
}
