/**
 * The customer handlers: the `toBoolean` coercion, de-duplication of a
 * listing by contact number, the listing's `where` clause and its
 * fetch/filter/dedupe/slice pipeline, the per-record role checks, and the
 * update of images, custom fields and flags.
 */
module CustomerController {
  import opened Wrappers
  import opened Strings
  import opened Js
  import opened Agent
  import opened KeywordSearch
  import opened Query
  import opened Accounts
  import opened ImageLists

  /**
   * A customer row: the columns the handlers branch on, the text columns
   * the filters search (`columns`), the stored image lists (JSON text) and
   * the custom-field object. An empty or null ContactNumber is "".
   */
  datatype Customer = Customer(
    id: string,
    ContactNumber: string,
    City: Option<string>,
    AssignToId: Option<string>,
    createdAt: int,
    updatedAt: Option<int>,
    columns: Row,
    CustomerImage: Option<string>,
    SitePlan: Option<string>,
    CustomerFields: map<string, JsValue>)


  // ---------------------------------------------------------------- toBoolean

  /**
   * `toBoolean(val)`: booleans as themselves, the words "true"/"false" in any
   * letter case and with surrounding white space as the boolean, anything
   * else (undefined, null, other text, numbers, objects) as undefined (None).
   * Only ASCII letters occur in the two words, so ASCII lower-casing decides
   * them exactly as `toLowerCase` does.
   */
  function ToBoolean(v: JsValue): (r: Option<bool>)
    ensures r.Some? ==> v.Bool? || v.Str?
    ensures v.Bool? ==> r == Some(v.b)
  {
    match v
    case Bool(b) => Some(b)
    case Str(s) => ReadWord(s)
    case _ => None
  }

  /** Text lower-cased and trimmed, read as one of the two words. */
  function ReadWord(s: string): Option<bool> {
    BoolOfWord(Trim(ToLower(s)))
  }

  function BoolOfWord(word: string): Option<bool> {
    if word == "true" then Some(true) else if word == "false" then Some(false) else None
  }

  function BoolWord(b: bool): string { if b then "true" else "false" }

  /** `undefined` for None, the boolean otherwise. */
  function FromOption(b: Option<bool>): JsValue {
    if b.Some? then Bool(b.value) else Undefined
  }

  /**
   * Text is read as a boolean exactly when, lower-cased and trimmed, it is
   * one of the two words: any spelling of a word with any letter case and
   * any white space around it gives that boolean.
   */
  lemma ToBooleanOfText(pre: string, word: string, post: string, b: bool)
    requires AllSpace(pre) && AllSpace(post)
    requires ToLower(word) == BoolWord(b)
    ensures ToBoolean(Str(pre + word + post)) == Some(b)
  {
    var s := pre + word + post;
    LoweredPadding(pre, word, post);
    WordTrimmed(pre, post, b);
    ToBooleanOfTrimmed(s, b);
  }

  lemma ToBooleanOfTrimmed(s: string, b: bool)
    requires Trim(ToLower(s)) == BoolWord(b)
    ensures ToBoolean(Str(s)) == Some(b)
  {
    TextReadAsWord(s);
    WordReadsBack(b);
    assert ReadWord(s) == BoolOfWord(BoolWord(b));
  }

  lemma TextReadAsWord(s: string)
    ensures ToBoolean(Str(s)) == ReadWord(s)
  {
  }

  lemma WordReadsBack(b: bool)
    ensures BoolOfWord(BoolWord(b)) == Some(b)
  {
  }

  lemma WordTrimmed(pre: string, post: string, b: bool)
    requires AllSpace(pre) && AllSpace(post)
    ensures Trim(pre + BoolWord(b) + post) == BoolWord(b)
  {
    var w := BoolWord(b);
    assert !IsSpace(w[0]) && !IsSpace(w[|w| - 1]);
    TrimPadded(pre, w, post);
  }

  lemma LoweredPadding(pre: string, word: string, post: string)
    requires AllSpace(pre) && AllSpace(post)
    ensures ToLower(pre + word + post) == pre + ToLower(word) + post
  {
    ToLowerConcat(pre + word, post);
    ToLowerConcat(pre, word);
    ToLowerOfSpace(pre);
    ToLowerOfSpace(post);
  }

  /** Nothing but the two words is read as a boolean: other text and non-text give undefined. */
  lemma ToBooleanOnlyWords(v: JsValue)
    requires !v.Bool?
    requires !(v.Str? && Trim(ToLower(v.s)) in {"true", "false"})
    ensures ToBoolean(v) == None
  {
  }

  // ---------------------------------------------------------------- dedupe

  /** `c.updatedAt || c.createdAt`: the time a record was last written. */
  function Stamp(c: Customer): int {
    if c.updatedAt.Some? then c.updatedAt.value else c.createdAt
  }

  /** The non-empty contact numbers of `cs`, in order, repeats kept. */
  function Numbers(cs: seq<Customer>): (r: seq<string>)
    ensures forall n :: n in r ==> n != ""
    ensures forall i :: 0 <= i < |cs| && cs[i].ContactNumber != "" ==> cs[i].ContactNumber in r
  {
    if cs == [] then []
    else
      var last := cs[|cs| - 1];
      var r := Numbers(cs[..|cs| - 1]) + (if last.ContactNumber == "" then [] else [last.ContactNumber]);
      assert forall i :: 0 <= i < |cs| - 1 ==> cs[i] == cs[..|cs| - 1][i];
      r
  }

  /**
   * The record a left-to-right scan keeps for number `n`: the first one,
   * replaced only by a later one with a strictly newer stamp.
   */
  function Kept(cs: seq<Customer>, n: string): (r: Option<Customer>)
    ensures r.Some? ==> r.value.ContactNumber == n
  {
    if cs == [] then None
    else
      var prev := Kept(cs[..|cs| - 1], n);
      var c := cs[|cs| - 1];
      if c.ContactNumber == n && (prev.None? || Stamp(c) > Stamp(prev.value)) then Some(c) else prev
  }

  /** `cs[i]` carries number `n`, no record with `n` is newer, and every earlier one with `n` is strictly older. */
  ghost predicate FirstNewest(cs: seq<Customer>, n: string, i: int) {
    0 <= i < |cs| && cs[i].ContactNumber == n
    && (forall j :: 0 <= j < |cs| && cs[j].ContactNumber == n ==> Stamp(cs[j]) <= Stamp(cs[i]))
    && (forall j :: 0 <= j < i && cs[j].ContactNumber == n ==> Stamp(cs[j]) < Stamp(cs[i]))
  }

  /**
   * The kept record for a number is the newest one, and among equally new
   * ones the earliest; there is one exactly when some record has the number.
   */
  lemma {:induction false} KeptIsFirstNewest(cs: seq<Customer>, n: string)
    ensures Kept(cs, n).None? <==> forall i :: 0 <= i < |cs| ==> cs[i].ContactNumber != n
    ensures Kept(cs, n).Some? ==> exists i :: FirstNewest(cs, n, i) && cs[i] == Kept(cs, n).value
  {
    if cs != [] {
      var init := cs[..|cs| - 1];
      var c := cs[|cs| - 1];
      KeptIsFirstNewest(init, n);
      assert forall j :: 0 <= j < |init| ==> init[j] == cs[j];
      var prev := Kept(init, n);
      if c.ContactNumber == n && (prev.None? || Stamp(c) > Stamp(prev.value)) {
        if prev.Some? {
          var i :| FirstNewest(init, n, i) && init[i] == prev.value;
        }
        NewestTakesOver(cs, n);
      } else if prev.Some? {
        var i :| FirstNewest(init, n, i) && init[i] == prev.value;
        NewestStays(cs, n, i);
      }
    }
  }

  /** A last record strictly newer than every earlier one with its number is the first newest. */
  lemma NewestTakesOver(cs: seq<Customer>, n: string)
    requires cs != [] && cs[|cs| - 1].ContactNumber == n
    requires forall j :: 0 <= j < |cs| - 1 && cs[j].ContactNumber == n ==> Stamp(cs[j]) < Stamp(cs[|cs| - 1])
    ensures FirstNewest(cs, n, |cs| - 1)
  {
  }

  /** A last record that is not newer leaves the first newest where it was. */
  lemma NewestStays(cs: seq<Customer>, n: string, i: int)
    requires cs != [] && FirstNewest(cs[..|cs| - 1], n, i)
    requires cs[|cs| - 1].ContactNumber != n || Stamp(cs[|cs| - 1]) <= Stamp(cs[i])
    ensures FirstNewest(cs, n, i)
  {
    assert forall j :: 0 <= j < |cs| - 1 ==> cs[..|cs| - 1][j] == cs[j];
  }

  lemma KeptOfListed(cs: seq<Customer>)
    ensures forall n :: n in Numbers(cs) ==> Kept(cs, n).Some?
  {
    forall n | n in Numbers(cs) ensures Kept(cs, n).Some? {
      NumberOccurs(cs, n);
      KeptIsFirstNewest(cs, n);
    }
  }

  lemma {:induction false} NumberOccurs(cs: seq<Customer>, n: string)
    requires n in Numbers(cs)
    ensures exists i :: 0 <= i < |cs| && cs[i].ContactNumber == n
  {
    var init := cs[..|cs| - 1];
    if n in Numbers(init) {
      NumberOccurs(init, n);
      var i :| 0 <= i < |init| && init[i].ContactNumber == n;
      assert cs[i] == init[i];
    } else {
      assert cs[|cs| - 1].ContactNumber == n;
    }
  }

  /**
   * The de-duplicated listing: one record per distinct non-empty contact
   * number, in the order the numbers first appear, each the kept record.
   */
  function NewestPerNumber(cs: seq<Customer>): (r: seq<Customer>)
    ensures |r| == |Dedup(Numbers(cs))|
    ensures forall k :: 0 <= k < |r| ==> Some(r[k]) == Kept(cs, Dedup(Numbers(cs))[k])
  {
    var ns := Dedup(Numbers(cs));
    KeptOfListed(cs);
    seq(|ns|, k requires 0 <= k < |ns| => Kept(cs, ns[k]).value)
  }

  /**
   * What de-duplication promises, stated on the records: no empty number,
   * no number twice, every non-empty number of the input represented, and
   * each record the newest (earliest among equals) input record with its number.
   */
  lemma NewestPerNumberMeaning(cs: seq<Customer>)
    ensures var r := NewestPerNumber(cs);
      && (forall k :: 0 <= k < |r| ==> r[k].ContactNumber != "")
      && (forall k, l :: 0 <= k < l < |r| ==> r[k].ContactNumber != r[l].ContactNumber)
      && (forall i :: 0 <= i < |cs| && cs[i].ContactNumber != "" ==>
            exists k :: 0 <= k < |r| && r[k].ContactNumber == cs[i].ContactNumber)
      && (forall k :: 0 <= k < |r| ==> exists i :: FirstNewest(cs, r[k].ContactNumber, i) && cs[i] == r[k])
  {
    NumbersOfNewest(cs);
    NewestCovers(cs);
    NewestAreFirstNewest(cs);
  }

  lemma NewestCovers(cs: seq<Customer>)
    ensures var r := NewestPerNumber(cs);
      forall i :: 0 <= i < |cs| && cs[i].ContactNumber != "" ==>
        exists k :: 0 <= k < |r| && r[k].ContactNumber == cs[i].ContactNumber
  {
    var r := NewestPerNumber(cs);
    var ns := Dedup(Numbers(cs));
    NumbersOfNewest(cs);
    forall i | 0 <= i < |cs| && cs[i].ContactNumber != ""
      ensures exists k :: 0 <= k < |r| && r[k].ContactNumber == cs[i].ContactNumber
    {
      assert cs[i].ContactNumber in ns;
      var k :| 0 <= k < |ns| && ns[k] == cs[i].ContactNumber;
      assert r[k].ContactNumber == ns[k];
    }
  }

  lemma NewestAreFirstNewest(cs: seq<Customer>)
    ensures var r := NewestPerNumber(cs);
      forall k :: 0 <= k < |r| ==> exists i :: FirstNewest(cs, r[k].ContactNumber, i) && cs[i] == r[k]
  {
    var r := NewestPerNumber(cs);
    var ns := Dedup(Numbers(cs));
    NumbersOfNewest(cs);
    forall k | 0 <= k < |r|
      ensures exists i :: FirstNewest(cs, r[k].ContactNumber, i) && cs[i] == r[k]
    {
      KeptIsFirstNewest(cs, ns[k]);
    }
  }

  /** The records of the de-duplicated listing carry the de-duplicated numbers, in order. */
  lemma NumbersOfNewest(cs: seq<Customer>)
    ensures var r := NewestPerNumber(cs); var ns := Dedup(Numbers(cs));
      forall k :: 0 <= k < |r| ==> r[k].ContactNumber == ns[k] && ns[k] in Numbers(cs)
  {
  }

  /** One step of the scan: the map after looking at record `c`. */
  function Scan(kept: map<string, Customer>, c: Customer): map<string, Customer> {
    if c.ContactNumber == "" then kept
    else if c.ContactNumber !in kept || Stamp(c) > Stamp(kept[c.ContactNumber]) then kept[c.ContactNumber := c]
    else kept
  }

  /** The map holds, for every non-empty number, the record kept so far (absent: none yet). */
  ghost predicate Tracks(kept: map<string, Customer>, cs: seq<Customer>) {
    forall n :: n != "" ==> Kept(cs, n) == (if n in kept then Some(kept[n]) else None)
  }

  lemma TracksStep(kept: map<string, Customer>, cs: seq<Customer>, i: int)
    requires 0 <= i < |cs| && Tracks(kept, cs[..i])
    ensures Tracks(Scan(kept, cs[i]), cs[..i + 1])
  {
    forall n | n != "" ensures Kept(cs[..i + 1], n) == (if n in Scan(kept, cs[i]) then Some(Scan(kept, cs[i])[n]) else None) {
      KeptSnoc(cs, i, n);
    }
  }

  lemma OrderStep(cs: seq<Customer>, i: int)
    requires 0 <= i < |cs|
    ensures var n := cs[i].ContactNumber; var d := Dedup(Numbers(cs[..i]));
      Dedup(Numbers(cs[..i + 1])) == if n == "" || n in d then d else d + [n]
  {
    NumbersSnoc(cs, i);
    if cs[i].ContactNumber != "" {
      DedupSnoc(Numbers(cs[..i]), cs[i].ContactNumber);
    } else {
      assert Numbers(cs[..i + 1]) == Numbers(cs[..i]);
    }
  }

  lemma NumbersSnoc(cs: seq<Customer>, i: int)
    requires 0 <= i < |cs|
    ensures Numbers(cs[..i + 1]) == Numbers(cs[..i]) + (if cs[i].ContactNumber == "" then [] else [cs[i].ContactNumber])
  {
    assert cs[..i + 1][..i] == cs[..i];
  }

  lemma KeptSnoc(cs: seq<Customer>, i: int, n: string)
    requires 0 <= i < |cs|
    ensures var prev := Kept(cs[..i], n);
      Kept(cs[..i + 1], n) == if cs[i].ContactNumber == n && (prev.None? || Stamp(cs[i]) > Stamp(prev.value)) then Some(cs[i]) else prev
  {
    assert cs[..i + 1][..i] == cs[..i];
  }

  /** Reading the finished map back in insertion order gives the de-duplicated listing. */
  lemma ReadBack(kept: map<string, Customer>, order: seq<string>, cs: seq<Customer>)
    requires Tracks(kept, cs) && order == Dedup(Numbers(cs))
    requires forall n :: n in order ==> n in kept
    ensures (seq(|order|, k requires 0 <= k < |order| => kept[order[k]])) == NewestPerNumber(cs)
  {
    NumbersOfNewest(cs);
  }

  /**
   * `deduplicateByContact(customers)`: a Map from number to record filled
   * in one pass (skipping empty numbers, replacing on a strictly newer
   * stamp), read back in insertion order.
   */
  method DeduplicateByContact(cs: seq<Customer>) returns (r: seq<Customer>)
    ensures r == NewestPerNumber(cs)
  {
    var kept: map<string, Customer> := map[];
    var order: seq<string> := [];
    var i := 0;
    while i < |cs|
      invariant 0 <= i <= |cs|
      invariant ScanState(kept, order, cs[..i])
    {
      var c := cs[i];
      ScanStateStep(kept, order, cs, i);
      if c.ContactNumber != "" {
        if c.ContactNumber !in kept {
          kept := kept[c.ContactNumber := c];
          order := order + [c.ContactNumber];
        } else if Stamp(c) > Stamp(kept[c.ContactNumber]) {
          kept := kept[c.ContactNumber := c];
        }
      }
      i := i + 1;
    }
    assert cs[..i] == cs;
    ReadBack(kept, order, cs);
    r := seq(|order|, k requires 0 <= k < |order| => kept[order[k]]);
  }

  /** The Map after a prefix of the scan: its keys in insertion order are the prefix's distinct numbers, each with its kept record. */
  ghost predicate ScanState(kept: map<string, Customer>, order: seq<string>, done: seq<Customer>) {
    order == Dedup(Numbers(done)) && (forall n :: n in kept <==> n in order) && Tracks(kept, done)
  }

  /** Where a record's number goes in the insertion order: at the end, the first time it is seen. */
  function Inserted(order: seq<string>, kept: map<string, Customer>, c: Customer): seq<string> {
    if c.ContactNumber == "" || c.ContactNumber in kept then order else order + [c.ContactNumber]
  }

  lemma ScanStateStep(kept: map<string, Customer>, order: seq<string>, cs: seq<Customer>, i: int)
    requires 0 <= i < |cs| && ScanState(kept, order, cs[..i])
    ensures ScanState(Scan(kept, cs[i]), Inserted(order, kept, cs[i]), cs[..i + 1])
  {
    OrderStep(cs, i);
    TracksStep(kept, cs, i);
  }

  // ---------------------------------------------------------------- listing filters

  /** Query-string parameter and the column its `contains` filter searches, in the order they are pushed. */
  const FilterColumns: seq<(string, string)> := [
    ("Campaign", "Campaign"), ("CustomerType", "CustomerType"), ("CustomerSubType", "CustomerSubType"),
    ("StatusType", "Verified"), ("City", "City"), ("Location", "Location"),
    ("ContactNumber", "ContactNumber"), ("ReferenceId", "ReferenceId"), ("Price", "Price")]

  /** A query parameter that is present and non-empty (truthy). */
  predicate Given(q: map<string, string>, p: string) {
    p in q && q[p] != ""
  }

  /** The row's `column` contains the trimmed parameter value. */
  predicate ColumnMatches(q: map<string, string>, p: string, column: string, row: Row)
    requires p in q
  {
    column in row && Contains(row[column], Trim(q[p]))
  }

  /** Every supplied parameter of `table` is contained in its column of the row. */
  predicate MatchesColumns(q: map<string, string>, table: seq<(string, string)>, row: Row) {
    forall i :: 0 <= i < |table| && Given(q, table[i].0) ==> ColumnMatches(q, table[i].0, table[i].1, row)
  }

  /** One `contains` clause per supplied parameter of `table`, in table order. */
  function ColumnClauses(q: map<string, string>, table: seq<(string, string)>): (r: seq<Clause>)
    ensures |r| <= |table|
  {
    if table == [] then []
    else
      (if Given(q, table[0].0) then [ContainsText(table[0].1, Trim(q[table[0].0]))] else [])
      + ColumnClauses(q, table[1..])
  }

  /** A row passes the column filters iff it matches every supplied parameter; omitted and empty ones do not filter. */
  lemma {:induction false} ColumnClausesMeaning(q: map<string, string>, table: seq<(string, string)>, row: Row)
    ensures HoldsAll(ColumnClauses(q, table), row) <==>
      MatchesColumns(q, table, row)
  {
    if table != [] {
      ColumnClausesMeaning(q, table[1..], row);
      var head := if Given(q, table[0].0) then [ContainsText(table[0].1, Trim(q[table[0].0]))] else [];
      var tail := ColumnClauses(q, table[1..]);
      assert ColumnClauses(q, table) == head + tail;
      HoldsAllConcat(head, tail, row);
      if Given(q, table[0].0) {
        HoldsAllOne(ContainsText(table[0].1, Trim(q[table[0].0])), row);
      }
      assert HoldsAll(head, row) <==> (Given(q, table[0].0) ==> ColumnMatches(q, table[0].0, table[0].1, row));
      TableTail(q, table, row);
    }
  }

  lemma TableTail(q: map<string, string>, table: seq<(string, string)>, row: Row)
    requires table != []
    ensures MatchesColumns(q, table, row)
        <==> (Given(q, table[0].0) ==> ColumnMatches(q, table[0].0, table[0].1, row)) && MatchesColumns(q, table[1..], row)
  {
    assert forall i :: 1 <= i < |table| ==> table[i] == table[1..][i - 1];
  }

  /**
   * The role clause of a listing: a city administrator sees customers whose
   * City contains theirs, a user those assigned to them. Fails with 500
   * when a city administrator has no city (the query layer refuses a
   * `contains` of null).
   */
  function RoleClauses(admin: Admin): (r: Outcome<seq<Clause>>)
    ensures r.Fail? <==> admin.role == CityAdmin && admin.city.None?
    ensures r.Done? && admin.role == CityAdmin ==> r.value == [ContainsText("City", admin.city.value)]
    ensures r.Done? && admin.role == UserRole ==> r.value == [Equals("AssignToId", admin.id)]
    ensures r.Done? && admin.role != CityAdmin && admin.role != UserRole ==> r.value == []
  {
    if admin.role == CityAdmin then
      if admin.city.None? then Fail(500) else Done([ContainsText("City", admin.city.value)])
    else if admin.role == UserRole then Done([Equals("AssignToId", admin.id)])
    else Done([])
  }

  /** The string tokens of a directive, or None when one is not text (the query layer refuses it). */
  function TextTokens(tokens: seq<JsValue>): (r: Option<seq<string>>)
    ensures r.Some? <==> forall i :: 0 <= i < |tokens| ==> tokens[i].Str?
    ensures r.Some? ==> |r.value| == |tokens| && forall i :: 0 <= i < |tokens| ==> tokens[i] == Str(r.value[i])
  {
    if tokens == [] then Some([])
    else if !tokens[0].Str? then None
    else
      var rest := TextTokens(tokens[1..]);
      if rest.None? then
        assert !forall i :: 0 <= i < |tokens| ==> tokens[i].Str? by {
          var j :| 0 <= j < |tokens[1..]| && !tokens[1..][j].Str?;
          assert !tokens[j + 1].Str?;
        }
        None
      else Some([tokens[0].s] + rest.value)
  }

  /**
   * The `AND` list of a customer listing, pushed in source order: the role
   * clause, one `contains` per supplied column filter, and for a non-blank
   * Keyword the clause "every token occurs in one of the fields" of the
   * resolved directive.
   */
  method BuildCustomerWhere(admin: Admin, q: map<string, string>, instructions: string,
                            ask: string -> Reply, parse: Parser)
    returns (r: Outcome<seq<Clause>>)
    ensures r.Fail? ==> r.status == 500
    ensures r.Fail? <==> RoleClauses(admin).Fail? || KeywordClause(q, instructions, ask, parse).None?
    ensures r.Done? ==> forall row :: HoldsAll(r.value, row) <==>
      && HoldsAll(RoleClauses(admin).value, row)
      && MatchesColumns(q, FilterColumns, row)
      && HoldsAll(KeywordClause(q, instructions, ask, parse).value, row)
  {
    var and: seq<Clause> := [];
    var role := RoleClauses(admin);
    if role.Fail? {
      return Fail(500);
    }
    and := and + role.value;
    assert and == role.value;
    and := and + ColumnClauses(q, FilterColumns);
    var kw := KeywordClause(q, instructions, ask, parse);
    if kw.None? {
      return Fail(500);
    }
    and := and + kw.value;
    WhereListMeaning(q, FilterColumns, role.value, kw.value);
    r := Done(and);
  }

  /** The AND list of a listing: the role clauses, the column clauses of `table`, then the keyword clauses. */
  lemma WhereListMeaning(q: map<string, string>, table: seq<(string, string)>, role: seq<Clause>, kw: seq<Clause>)
    ensures forall row :: HoldsAll(role + ColumnClauses(q, table) + kw, row) <==>
      && HoldsAll(role, row)
      && MatchesColumns(q, table, row)
      && HoldsAll(kw, row)
  {
    forall row
      ensures HoldsAll(role + ColumnClauses(q, table) + kw, row) <==>
        && HoldsAll(role, row)
        && MatchesColumns(q, table, row)
        && HoldsAll(kw, row)
    {
      HoldsAllConcat(role, ColumnClauses(q, table), row);
      HoldsAllConcat(role + ColumnClauses(q, table), kw, row);
      ColumnClausesMeaning(q, table, row);
    }
  }

  lemma HoldsAllConcat(a: seq<Clause>, b: seq<Clause>, row: Row)
    ensures HoldsAll(a + b, row) <==> HoldsAll(a, row) && HoldsAll(b, row)
  {
    assert forall i :: 0 <= i < |a| ==> (a + b)[i] == a[i];
    assert forall i :: 0 <= i < |b| ==> (a + b)[|a| + i] == b[i];
    if HoldsAll(a, row) && HoldsAll(b, row) {
      forall i | 0 <= i < |a + b| ensures Holds((a + b)[i], row) {
        if i >= |a| { assert (a + b)[i] == b[i - |a|]; }
      }
    }
  }

  /**
   * The keyword clause: nothing for an absent or blank Keyword; otherwise the
   * directive resolved for the trimmed keyword turned into "every token in
   * some field"; None when a token is not text.
   */
  function KeywordClause(q: map<string, string>, instructions: string, ask: string -> Reply, parse: Parser): (r: Option<seq<Clause>>)
    ensures (!("Keyword" in q) || Trim(q["Keyword"]) == "") ==> r == Some([])
  {
    if "Keyword" !in q then Some([])
    else
      var keyword := Trim(q["Keyword"]);
      if keyword == "" then Some([])
      else DirectiveClause(ResolveKeyword(instructions, keyword, ask, parse))
  }

  /** `{ AND: tokens.map(t => ({ OR: fields.map(...) })) }` for a directive; None when a token is not text. */
  function DirectiveClause(d: Directive): (r: Option<seq<Clause>>)
    ensures r.Some? <==> forall i :: 0 <= i < |d.tokens| ==> d.tokens[i].Str?
  {
    var tokens := TextTokens(d.tokens);
    if tokens.None? then None else Some([TokensInFields(tokens.value, d.fields)])
  }

  /**
   * The meaning of the keyword clause: a row passes iff every token of the
   * directive is contained in at least one of its fields.
   */
  lemma DirectiveClauseMeaning(d: Directive, row: Row)
    requires DirectiveClause(d).Some?
    ensures HoldsAll(DirectiveClause(d).value, row) <==>
      forall i :: 0 <= i < |d.tokens| ==> FoundIn(d.fields, d.tokens[i].s, row)
  {
    var tokens := TextTokens(d.tokens).value;
    TokensInFieldsMeaning(tokens, d.fields, row);
    var c := TokensInFields(tokens, d.fields);
    assert DirectiveClause(d).value == [c];
    assert HoldsAll([c], row) <==> Holds(c, row) by { assert [c][0] == c; }
    assert forall i :: 0 <= i < |d.tokens| ==> d.tokens[i].s == tokens[i];
    assert (forall i :: 0 <= i < |tokens| ==> FoundIn(d.fields, tokens[i], row))
       <==> (forall i :: 0 <= i < |d.tokens| ==> FoundIn(d.fields, d.tokens[i].s, row));
  }

  /** A listing asks for ascending creation time iff `sort` lower-cases to "asc"; otherwise newest update first, then newest creation. */
  function OrderBy(sort: Option<string>): (r: seq<(string, string)>)
    ensures sort.Some? && ToLower(sort.value) == "asc" ==> r == [("createdAt", "asc")]
    ensures !(sort.Some? && ToLower(sort.value) == "asc") ==> r == [("updatedAt", "desc"), ("createdAt", "desc")]
  {
    if sort.Some? && ToLower(sort.value) == "asc" then [("createdAt", "asc")]
    else [("updatedAt", "desc"), ("createdAt", "desc")]
  }

  // ---------------------------------------------------------------- listing pipeline

  /** The rows a listing reads from the ordered matches: `skip: offset`, and `take: 3 * Limit` when a Limit is given. */
  function Window(ordered: seq<Customer>, offset: nat, limit: Option<nat>): (r: seq<Customer>)
    ensures limit.Some? ==> |r| <= 3 * limit.value
    ensures offset <= |ordered| ==> r <= ordered[offset..]
    ensures offset > |ordered| ==> r == []
    ensures limit.None? ==> r == (if offset <= |ordered| then ordered[offset..] else [])
  {
    var rest := if offset <= |ordered| then ordered[offset..] else [];
    if limit.Some? && 3 * limit.value < |rest| then rest[..3 * limit.value] else rest
  }

  /** `c.AssignToId && allowedIds.includes(c.AssignToId)`. */
  predicate AssignedToOneOf(c: Customer, allowedIds: seq<string>) {
    c.AssignToId.Some? && c.AssignToId.value != "" && c.AssignToId.value in allowedIds
  }

  /** The customers assigned to one of the matched accounts, in order. */
  function AssignedTo(cs: seq<Customer>, allowedIds: seq<string>): (r: seq<Customer>)
    ensures |r| <= |cs|
    ensures forall c :: c in r <==> c in cs && AssignedToOneOf(c, allowedIds)
  {
    if cs == [] then []
    else (if AssignedToOneOf(cs[0], allowedIds) then [cs[0]] else []) + AssignedTo(cs[1..], allowedIds)
  }

  /** The first `n` elements (all of them when fewer). */
  function Take<T>(xs: seq<T>, n: nat): (r: seq<T>)
    ensures |r| <= n && r <= xs
    ensures |xs| <= n ==> r == xs
  {
    if |xs| <= n then xs else xs[..n]
  }

  /**
   * The listing after the database read: `ordered` is every matching row in
   * the requested order, `allowedIds` the accounts a `User` filter matched.
   * With a `User` filter the assigned rows of the window are returned at
   * once (no de-duplication, no cut to Limit); otherwise rows are
   * de-duplicated unless a ContactNumber filter was given, then cut to Limit.
   */
  method ListCustomers(q: map<string, string>, ordered: seq<Customer>, offset: nat, limit: Option<nat>,
                       allowedIds: seq<string>)
    returns (r: seq<Customer>)
    ensures Given(q, "User") ==> r == AssignedTo(Window(ordered, offset, limit), allowedIds)
    ensures !Given(q, "User") && !Given(q, "ContactNumber") ==>
      r == (if limit.Some? then Take(NewestPerNumber(Window(ordered, offset, limit)), limit.value)
            else NewestPerNumber(Window(ordered, offset, limit)))
    ensures !Given(q, "User") && Given(q, "ContactNumber") ==>
      r == (if limit.Some? then Take(Window(ordered, offset, limit), limit.value) else Window(ordered, offset, limit))
    ensures !Given(q, "User") && limit.Some? ==> |r| <= limit.value
  {
    var customers := Window(ordered, offset, limit);
    if Given(q, "User") {
      return AssignedTo(customers, allowedIds);
    }
    if !Given(q, "ContactNumber") {
      customers := DeduplicateByContact(customers);
    }
    if limit.Some? {
      customers := Take(customers, limit.value);
    }
    r := customers;
  }

  /**
   * Without a User or ContactNumber filter a listing never repeats a
   * contact number, and it shows at most Limit rows out of at most 3 * Limit read.
   */
  lemma ListingHasDistinctNumbers(ordered: seq<Customer>, offset: nat, limit: nat)
    ensures var r := Take(NewestPerNumber(Window(ordered, offset, Some(limit))), limit);
      |r| <= limit && forall k, l :: 0 <= k < l < |r| ==> r[k].ContactNumber != r[l].ContactNumber
  {
    var w := Window(ordered, offset, Some(limit));
    NewestPerNumberMeaning(w);
    var d := NewestPerNumber(w);
    var r := Take(d, limit);
    assert forall k :: 0 <= k < |r| ==> r[k] == d[k];
  }

  // ---------------------------------------------------------------- single-record access

  /** `getCustomerById`: 404 when absent, then the user and city administrator checks (403). */
  function GetCustomerById(admin: Admin, found: Option<Customer>): (r: Outcome<Customer>)
    ensures found.None? ==> r == Fail(404)
    ensures found.Some? ==> (r == Done(found.value) <==> MayTouchRecord(admin, found.value.AssignToId, found.value.City))
    ensures found.Some? && r.Fail? ==> r.status == 403
  {
    if found.None? then Fail(404)
    else
      var c := found.value;
      var refusal := RecordRefusal(admin, c.AssignToId, c.City);
      if refusal.Some? then Fail(refusal.value) else Done(c)
  }

  /**
   * A city administrator's listing filters City by `contains`, while opening
   * a record demands an exact match: a customer in "Pune East" is listed for
   * the administrator of "Pune" but refused when opened.
   */
  lemma CityAdminListsMoreThanItOpens(admin: Admin, c: Customer)
    requires admin.role == CityAdmin && admin.city == Some("Pune")
    requires c.City == Some("Pune East") && c.columns == map["City" := "Pune East"]
    ensures HoldsAll(RoleClauses(admin).value, c.columns)
    ensures GetCustomerById(admin, Some(c)) == Fail(403)
  {
    assert OccursAt("Pune East", "Pune", 0);
  }

  // ---------------------------------------------------------------- delete

  /** The stored JSON text of an image list: its string entries, None when it parses to something other than an array; absent, empty or unparseable text is no images. */
  function StoredImages(stored: Option<string>, parse: Parser): (r: Option<seq<string>>)
    ensures stored.None? || stored == Some("") ==> r == Some([])
    ensures r.None? <==> stored.Some? && stored.value != "" && parse(stored.value).Some? && !parse(stored.value).value.Arr?
    ensures r.Some? && stored.Some? && stored.value != "" && parse(stored.value).Some? ==>
      forall x :: x in r.value <==> Str(x) in parse(stored.value).value.items
  {
    if stored.None? || stored.value == "" then Some([])
    else
      match parse(stored.value)
      case None => Some([])
      case Some(Arr(items)) => Some(StrItems(items))
      case Some(_) => None
  }

  /** The text entries of an array, in order. */
  function StrItems(items: seq<JsValue>): (r: seq<string>)
    ensures forall x :: x in r <==> Str(x) in items
  {
    if items == [] then []
    else (if items[0].Str? then [items[0].s] else []) + StrItems(items[1..])
  }

  /**
   * `deleteCustomer`: 404 when absent, 403 under the role checks, 500 when
   * a stored list is not an array; otherwise the host paths destroyed for
   * every stored image and site plan, blank ids included.
   */
  function DeleteCustomer(admin: Admin, found: Option<Customer>, parse: Parser): (r: Outcome<seq<string>>)
    ensures found.None? ==> r == Fail(404)
    ensures found.Some? && !MayTouchRecord(admin, found.value.AssignToId, found.value.City) ==> r == Fail(403)
    ensures r.Done? <==>
      (found.Some? && MayTouchRecord(admin, found.value.AssignToId, found.value.City)
       && StoredImages(found.value.CustomerImage, parse).Some? && StoredImages(found.value.SitePlan, parse).Some?)
    ensures r.Fail? ==> r.status in {403, 404, 500}
    ensures r.Done? ==>
      var images := StoredImages(found.value.CustomerImage, parse).value;
      var plans := StoredImages(found.value.SitePlan, parse).value;
      && |r.value| == |images| + |plans|
      && (forall i :: 0 <= i < |images| ==> r.value[i] == "customer/customer_images" + "/" + PublicIdOf(images[i]))
      && (forall i :: 0 <= i < |plans| ==> r.value[|images| + i] == "customer/site_plans" + "/" + PublicIdOf(plans[i]))
  {
    if found.None? then Fail(404)
    else
      var c := found.value;
      var refusal := RecordRefusal(admin, c.AssignToId, c.City);
      if refusal.Some? then Fail(refusal.value)
      else
        var images := StoredImages(c.CustomerImage, parse);
        var plans := StoredImages(c.SitePlan, parse);
        if images.None? || plans.None? then Fail(500)
        else
          DestroyPathsAt("customer/customer_images", images.value);
          DestroyPathsAt("customer/site_plans", plans.value);
          Done(DestroyPaths("customer/customer_images", images.value, false)
               + DestroyPaths("customer/site_plans", plans.value, false))
  }

  // ---------------------------------------------------------------- update

  /** Body keys that only steer the update and never reach the database (two spelled with a trailing space). */
  const RemovalKeys: set<string> := {"removedCustomerImages", "removedSitePlans", "removedCustomerImages ", "removedSitePlans "}

  /** Columns the update writes from its own computation rather than from the body. */
  const ComputedKeys: set<string> := {"CustomerImage", "SitePlan", "CustomerFields"}

  /**
   * `safeParse(x) || []` used as a removal list: an array gives its text
   * entries; non-empty text gives None (the handler then calls `.map` on a
   * string and fails with 500); anything else removes nothing.
   */
  function RemovalList(v: JsValue, parse: Parser): (r: Option<seq<string>>)
    ensures !Truthy(SafeParse(v, parse)) ==> r == Some([])
    ensures SafeParse(v, parse).Arr? ==> r == Some(StrItems(SafeParse(v, parse).items))
    ensures r.None? <==> SafeParse(v, parse).Str? && SafeParse(v, parse).s != ""
  {
    match SafeParse(v, parse)
    case Arr(items) => Some(StrItems(items))
    case Str(s) => if s == "" then Some([]) else None
    case _ => Some([])
  }

  /**
   * `updateData.removedX.length > 0` on the parsed removal list: an array
   * with any entry, text or not, asks for a removal (non-empty text fails
   * earlier, in `RemovalList`); any other value has no length and removes
   * nothing.
   */
  predicate RemovalRequested(v: JsValue, parse: Parser) {
    SafeParse(v, parse).Arr? && SafeParse(v, parse).items != []
  }

  /** Every non-empty removal list asks for a removal; a list of non-text entries asks for one while removing nothing. */
  lemma RemovalListRequested(v: JsValue, parse: Parser)
    ensures RemovalList(v, parse).Some? && RemovalList(v, parse).value != [] ==> RemovalRequested(v, parse)
    ensures v == Arr([Num(123)]) ==> RemovalList(v, parse) == Some([]) && RemovalRequested(v, parse)
  {
    if v == Arr([Num(123)]) {
      assert StrItems([Num(123)]) == [];
    }
  }

  /**
   * The entries of `req.body.CustomerFields`: none when it is falsy; text is
   * parsed, and text that does not parse, or parses to null, fails (None);
   * a non-object value contributes no entries.
   */
  function FieldEntries(v: JsValue, parse: Parser): (r: Option<seq<(string, JsValue)>>)
    ensures !Truthy(v) ==> r == Some([])
    ensures v.Obj? ==> r == Some(v.entries)
    ensures v.Str? && v.s != "" && parse(v.s).None? ==> r.None?
  {
    if !Truthy(v) then Some([])
    else
      var raw := if v.Str? then parse(v.s) else Some(v);
      match raw
      case None => None
      case Some(Obj(e)) => Some(e)
      case Some(Null) => None
      case Some(Undefined) => None
      case Some(_) => Some([])
  }

  /**
   * `{ ...base, ...Object.fromEntries(entries.filter(([k]) => allowed.has(k))) }`:
   * every existing key stays; a key takes the supplied value (the last entry
   * for it) exactly when it is an active field name that was supplied.
   */
  function Overlay(base: map<string, JsValue>, entries: seq<(string, JsValue)>, allowed: set<string>): (r: map<string, JsValue>)
    ensures forall k :: k in r <==> k in base || (k in allowed && k in Keys(entries))
    ensures forall k :: k in r ==> r[k] == if k in allowed && k in Keys(entries) then Get(entries, k) else base[k]
  {
    if entries == [] then base
    else
      var init := entries[..|entries| - 1];
      var last := entries[|entries| - 1];
      var m := Overlay(base, init, allowed);
      assert Keys(entries) == Keys(init) + [last.0];
      if last.0 in allowed then m[last.0 := last.1] else m
  }

  /** `""` in a relation column becomes null; every other value passes unchanged. */
  function NullIfBlankRelation(k: string, v: JsValue): JsValue {
    if (k == "AssignToId" || k == "CreatedById") && v == Str("") then Null else v
  }

  /**
   * What an update writes to an image column: the composed list, or, for a
   * stored value that parses to something other than an array and that no
   * removal, clear or upload touches, that value written back as it is.
   */
  datatype ImageColumn = Images(urls: seq<string>) | Rewritten(value: JsValue)

  /**
   * Whether an update can handle a stored image column: an array always; a
   * stored value that parses to something else only when nothing is removed,
   * cleared or uploaded, since `.filter`, `.map` and `.push` then throw.
   * `removing` is whether the raw removal list has any entry.
   */
  predicate ListUpdatable(stored: Option<string>, removing: bool, clear: bool, uploads: seq<string>, parse: Parser) {
    StoredImages(stored, parse).Some? || (!removing && !clear && uploads == [])
  }

  /** The column an update writes, for a stored column it can handle. */
  function ColumnAfter(stored: Option<string>, removed: seq<string>, clear: bool, uploads: seq<string>, parse: Parser): ImageColumn
  {
    match StoredImages(stored, parse)
    case Some(existing) => Images(Composed(existing, removed, clear, uploads))
    case None => Rewritten(parse(stored.value).value)
  }

  /** The paths an update destroys for one column it can handle: none for a value written back. */
  function ColumnDestroyed(folder: string, stored: Option<string>, removed: seq<string>, clear: bool, parse: Parser): seq<string> {
    match StoredImages(stored, parse)
    case Some(existing) => Destroyed(folder, existing, removed, clear, true)
    case None => []
  }

  /** An update that cannot handle a stored column fails; one that can writes the composed list or the value unchanged. */
  method UpdateColumn(folder: string, stored: Option<string>, removed: seq<string>, removing: bool, clear: bool, uploads: seq<string>, parse: Parser)
    returns (r: Option<(ImageColumn, seq<string>)>)
    ensures r.Some? <==> ListUpdatable(stored, removing, clear, uploads, parse)
    ensures r.Some? ==>
      r.value.0 == ColumnAfter(stored, removed, clear, uploads, parse) && r.value.1 == ColumnDestroyed(folder, stored, removed, clear, parse)
    ensures r.Some? && StoredImages(stored, parse).None? ==> r.value.1 == []
  {
    var existing := StoredImages(stored, parse);
    if existing.None? {
      if removing || clear || uploads != [] {
        return None;
      }
      return Some((Rewritten(parse(stored.value).value), []));
    }
    var images, destroyed := UpdateImageList(folder, existing.value, removed, clear, uploads, true);
    return Some((Images(images), destroyed));
  }

  /** What an accepted update writes: the other columns, both image columns, the merged custom fields, whether updatedAt is forced, and the host paths destroyed. */
  datatype CustomerUpdate = CustomerUpdate(
    data: map<string, JsValue>,
    CustomerImage: ImageColumn,
    SitePlan: ImageColumn,
    CustomerFields: map<string, JsValue>,
    touch: bool,
    destroyed: seq<string>)

  /**
   * The columns taken from the body: every body key except the removal
   * lists and the computed columns, a blank relation id as null, and the
   * two flags always present as `toBoolean` of what was sent.
   */
  ghost predicate CleanedFrom(data: map<string, JsValue>, body: map<string, JsValue>) {
    && data.Keys == (body.Keys - RemovalKeys - ComputedKeys) + {"isFavourite", "isChecked"}
    && data["isFavourite"] == FromOption(ToBoolean(Lookup(body, "isFavourite")))
    && data["isChecked"] == FromOption(ToBoolean(Lookup(body, "isChecked")))
    && (forall k :: k in data && k != "isFavourite" && k != "isChecked" ==> data[k] == NullIfBlankRelation(k, body[k]))
  }

  /** The in-place clean-up of `updateData`: relation ids, removal keys, computed columns, flags. */
  method CleanUpdateData(body: map<string, JsValue>) returns (updateData: map<string, JsValue>)
    ensures CleanedFrom(updateData, body)
  {
    updateData := body;
    if "AssignToId" in updateData && updateData["AssignToId"] == Str("") {
      updateData := updateData["AssignToId" := Null];
    }
    if "CreatedById" in updateData && updateData["CreatedById"] == Str("") {
      updateData := updateData["CreatedById" := Null];
    }
    assert updateData.Keys == body.Keys;
    assert forall k :: k in updateData ==> updateData[k] == NullIfBlankRelation(k, body[k]);
    ghost var relinked := updateData;
    updateData := updateData - RemovalKeys - ComputedKeys;
    updateData := updateData["isFavourite" := FromOption(ToBoolean(Lookup(body, "isFavourite")))];
    updateData := updateData["isChecked" := FromOption(ToBoolean(Lookup(body, "isChecked")))];
    CleanedAfterRelink(relinked, body);
  }

  /** Dropping the removal and computed keys from the re-linked body and writing both flags gives the cleaned data. */
  lemma CleanedAfterRelink(m: map<string, JsValue>, body: map<string, JsValue>)
    requires m.Keys == body.Keys
    requires forall k :: k in m ==> m[k] == NullIfBlankRelation(k, body[k])
    ensures CleanedFrom((m - RemovalKeys - ComputedKeys)
                          ["isFavourite" := FromOption(ToBoolean(Lookup(body, "isFavourite")))]
                          ["isChecked" := FromOption(ToBoolean(Lookup(body, "isChecked")))], body)
  {
    DropAndWrite(m, body.Keys, RemovalKeys, ComputedKeys, "isFavourite", FromOption(ToBoolean(Lookup(body, "isFavourite"))),
                 "isChecked", FromOption(ToBoolean(Lookup(body, "isChecked"))));
  }

  lemma DropAndWrite<V>(m: map<string, V>, keys: set<string>, a: set<string>, b: set<string>, f1: string, v1: V, f2: string, v2: V)
    requires m.Keys == keys && f1 != f2
    ensures var d := (m - a - b)[f1 := v1][f2 := v2];
      && d.Keys == (keys - a - b) + {f1, f2}
      && d[f1] == v1 && d[f2] == v2
      && forall k :: k in d && k != f1 && k != f2 ==> k in m && d[k] == m[k]
  {
  }

  /**
   * `updateCustomer`. Failures in source order: 404 for a missing record,
   * 500 for custom fields that do not parse, 403 from the role checks (made
   * after the merge), 500 for a removal list that is non-empty text, and
   * 500 when a stored column that is not an array is removed from, cleared
   * or appended to.
   */
  method UpdateCustomer(admin: Admin, body: map<string, JsValue>, found: Option<Customer>, activeFields: set<string>,
                        imageUploads: seq<string>, planUploads: seq<string>, parse: Parser)
    returns (r: Outcome<CustomerUpdate>)
    ensures found.None? ==> r == Fail(404)
    ensures found.Some? && FieldEntries(Lookup(body, "CustomerFields"), parse).None? ==> r == Fail(500)
    ensures (found.Some? && FieldEntries(Lookup(body, "CustomerFields"), parse).Some?
             && !MayTouchRecord(admin, found.value.AssignToId, found.value.City)) ==> r == Fail(403)
    ensures r.Done? <==>
      (found.Some? && FieldEntries(Lookup(body, "CustomerFields"), parse).Some?
       && MayTouchRecord(admin, found.value.AssignToId, found.value.City)
       && RemovalList(Lookup(body, "removedCustomerImages"), parse).Some?
       && RemovalList(Lookup(body, "removedSitePlans"), parse).Some?
       && ListUpdatable(found.value.CustomerImage, RemovalRequested(Lookup(body, "removedCustomerImages"), parse),
                        ClearRequested(Lookup(body, "CustomerImage"), parse), imageUploads, parse)
       && ListUpdatable(found.value.SitePlan, RemovalRequested(Lookup(body, "removedSitePlans"), parse),
                        ClearRequested(Lookup(body, "SitePlan"), parse), planUploads, parse))
    ensures r.Fail? ==> r.status in {403, 404, 500}
    ensures r.Done? ==>
      var c := found.value;
      var u := r.value;
      var removedImages := RemovalList(Lookup(body, "removedCustomerImages"), parse).value;
      var removedPlans := RemovalList(Lookup(body, "removedSitePlans"), parse).value;
      var clearImages := ClearRequested(Lookup(body, "CustomerImage"), parse);
      var clearPlans := ClearRequested(Lookup(body, "SitePlan"), parse);
      && u.CustomerImage == ColumnAfter(c.CustomerImage, removedImages, clearImages, imageUploads, parse)
      && u.SitePlan == ColumnAfter(c.SitePlan, removedPlans, clearPlans, planUploads, parse)
      && u.destroyed == ColumnDestroyed("customer/customer_images", c.CustomerImage, removedImages, clearImages, parse)
                        + ColumnDestroyed("customer/site_plans", c.SitePlan, removedPlans, clearPlans, parse)
      && u.CustomerFields == Overlay(c.CustomerFields, FieldEntries(Lookup(body, "CustomerFields"), parse).value, activeFields)
      && CleanedFrom(u.data, body)
      && (u.touch <==> body.Keys != {"isChecked"})
  {
    var updateData: map<string, JsValue> := body;
    var sentImages := SafeParse(Lookup(body, "CustomerImage"), parse);
    var sentPlans := SafeParse(Lookup(body, "SitePlan"), parse);
    var removedImages := RemovalList(Lookup(body, "removedCustomerImages"), parse);
    var removedPlans := RemovalList(Lookup(body, "removedSitePlans"), parse);
    if found.None? {
      return Fail(404);
    }
    var existing := found.value;
    var entries := FieldEntries(Lookup(body, "CustomerFields"), parse);
    if entries.None? {
      return Fail(500);
    }
    var merged := Overlay(existing.CustomerFields, entries.value, activeFields);
    var refusal := RecordRefusal(admin, existing.AssignToId, existing.City);
    if refusal.Some? {
      return Fail(refusal.value);
    }
    if removedImages.None? || removedPlans.None? {
      return Fail(500);
    }
    var images := UpdateColumn("customer/customer_images", existing.CustomerImage, removedImages.value,
                               RemovalRequested(Lookup(body, "removedCustomerImages"), parse), sentImages == Arr([]), imageUploads, parse);
    var plans := UpdateColumn("customer/site_plans", existing.SitePlan, removedPlans.value,
                              RemovalRequested(Lookup(body, "removedSitePlans"), parse), sentPlans == Arr([]), planUploads, parse);
    if images.None? || plans.None? {
      return Fail(500);
    }
    updateData := CleanUpdateData(updateData);
    var onlyIsChecked := body.Keys == {"isChecked"};
    r := Done(CustomerUpdate(updateData, images.value.0, plans.value.0, merged, !onlyIsChecked, images.value.1 + plans.value.1));
  }

  /** Custom fields are only ever added or overwritten by an update, never dropped, and only active field names change. */
  lemma MergeKeepsFields(base: map<string, JsValue>, entries: seq<(string, JsValue)>, allowed: set<string>, k: string)
    ensures k in base ==> k in Overlay(base, entries, allowed)
    ensures k in base && k !in allowed ==> Overlay(base, entries, allowed)[k] == base[k]
    ensures k !in base && k !in allowed ==> k !in Overlay(base, entries, allowed)
  {
  }
}
