/**
 * `getKeywordSearchData`: turns a free-text keyword into search tokens and
 * the customer fields to search, trusting the classifier's reply only when
 * it has the expected shape and falling back to a plain split otherwise.
 */
module KeywordSearch {
  import opened Wrappers
  import opened Strings
  import opened Js
  import opened Agent

  /** The fields a token may be searched in; the only fields a reply may name. */
  const DefaultFields: seq<string> := [
    "Description", "Campaign", "CustomerType", "CustomerSubType", "customerName", "ContactNumber",
    "City", "Location", "SubLocation", "Price", "ReferenceId", "CustomerDate"
  ]

  /** The default field list the classifier's instructions show: it omits CustomerDate. */
  const PromptFields: seq<string> := [
    "Description", "Campaign", "CustomerType", "CustomerSubType", "customerName", "ContactNumber",
    "City", "Location", "SubLocation", "Price", "ReferenceId"
  ]

  /** The search directive: tokens are ANDed, fields are ORed. */
  datatype Directive = Directive(tokens: seq<JsValue>, fields: seq<string>)

  /** `tokens.filter(Boolean)`. */
  function KeepTruthy(xs: seq<JsValue>): (r: seq<JsValue>)
    ensures |r| <= |xs|
    ensures forall x :: x in r <==> x in xs && Truthy(x)
  {
    if xs == [] then []
    else if Truthy(xs[0]) then [xs[0]] + KeepTruthy(xs[1..])
    else KeepTruthy(xs[1..])
  }

  /** `fields.filter(f => DEFAULT_FIELDS.includes(f))`: only string entries can be found in the list. */
  function KeepDefaultFields(xs: seq<JsValue>): (r: seq<string>)
    ensures |r| <= |xs|
    ensures forall f :: f in r <==> f in DefaultFields && Str(f) in xs
  {
    if xs == [] then []
    else if xs[0].Str? && xs[0].s in DefaultFields then [xs[0].s] + KeepDefaultFields(xs[1..])
    else KeepDefaultFields(xs[1..])
  }

  /** The token filter works entry by entry: order and repeats of the reply are kept. */
  lemma {:induction false} KeepTruthyConcat(a: seq<JsValue>, b: seq<JsValue>)
    ensures KeepTruthy(a + b) == KeepTruthy(a) + KeepTruthy(b)
  {
    if a == [] {
      assert a + b == b;
    } else {
      var ab := a + b;
      assert ab[0] == a[0] && ab[1..] == a[1..] + b;
      KeepTruthyConcat(a[1..], b);
    }
  }

  /** A single token is kept, unchanged, exactly when it is truthy. */
  lemma KeepTruthyOne(x: JsValue)
    ensures KeepTruthy([x]) == if Truthy(x) then [x] else []
  {
    assert [x][1..] == [];
  }

  /** The field filter works entry by entry: order and repeats of the reply are kept. */
  lemma {:induction false} KeepDefaultFieldsConcat(a: seq<JsValue>, b: seq<JsValue>)
    ensures KeepDefaultFields(a + b) == KeepDefaultFields(a) + KeepDefaultFields(b)
  {
    if a == [] {
      assert a + b == b;
    } else {
      var ab := a + b;
      assert ab[0] == a[0] && ab[1..] == a[1..] + b;
      KeepDefaultFieldsConcat(a[1..], b);
    }
  }

  /** A single entry is kept exactly when it is the text of an allowed field. */
  lemma KeepDefaultFieldsOne(x: JsValue)
    ensures KeepDefaultFields([x]) == if x.Str? && x.s in DefaultFields then [x.s] else []
  {
    assert [x][1..] == [];
  }

  /** `keyword.split(" ").filter(Boolean)`. */
  function FallbackTokens(keyword: string): (r: seq<string>)
    ensures forall t :: t in r ==> t != "" && ' ' !in t
  {
    var r := NonEmpty(Split(keyword, [' ']));
    assert forall t :: t in r ==> ' ' !in t by {
      forall t | t in r ensures ' ' !in t {
        var parts := Split(keyword, [' ']);
        var i :| 0 <= i < |parts| && parts[i] == t;
        SplitPiecesHaveNoSeparator(keyword, [' ']);
        assert forall j :: 0 <= j < |parts[i]| ==> parts[i][j] !in [' '];
      }
    }
    r
  }

  function AsStrings(ts: seq<string>): (r: seq<JsValue>)
    ensures |r| == |ts| && forall i :: 0 <= i < |ts| ==> r[i] == Str(ts[i])
  {
    if ts == [] then [] else [Str(ts[0])] + AsStrings(ts[1..])
  }

  /** The directive of the catch block. */
  function Fallback(keyword: string): (r: Directive)
    ensures r.fields == DefaultFields
    ensures |r.tokens| == |FallbackTokens(keyword)|
    ensures forall i :: 0 <= i < |r.tokens| ==> r.tokens[i] == Str(FallbackTokens(keyword)[i])
    ensures forall t :: t in r.tokens ==> Truthy(t)
  {
    var ts := FallbackTokens(keyword);
    var r := Directive(AsStrings(ts), DefaultFields);
    assert forall i :: 0 <= i < |r.tokens| ==> r.tokens[i] == Str(ts[i]) && ts[i] in ts;
    r
  }

  /**
   * `getKeywordSearchData(keyword)` given how the agent call settled:
   * a reply object with array-valued `tokens` and `fields` is sanitised;
   * a rejection, a null or non-object reply, or a missing array falls back.
   */
  function GetKeywordSearchData(keyword: string, agent: AgentResult): (r: Directive)
    ensures forall f :: f in r.fields ==> f in DefaultFields
    ensures forall t :: t in r.tokens ==> Truthy(t)
    ensures !UsableReply(agent) ==> r == Fallback(keyword)
    ensures UsableReply(agent) ==>
      r == Directive(KeepTruthy(Get(agent.value.entries, "tokens").items),
                     KeepDefaultFields(Get(agent.value.entries, "fields").items))
  {
    if UsableReply(agent) then
      var reply := agent.value.entries;
      Directive(KeepTruthy(Get(reply, "tokens").items), KeepDefaultFields(Get(reply, "fields").items))
    else
      Fallback(keyword)
  }

  /** `Array.isArray(aiResult.tokens) && Array.isArray(aiResult.fields)` on a reply that did not throw. */
  predicate UsableReply(agent: AgentResult) {
    agent.Resolved? && agent.value.Obj?
    && Get(agent.value.entries, "tokens").Arr? && Get(agent.value.entries, "fields").Arr?
  }

  /** The whole resolution: ask the agent, then sanitise or fall back. */
  function ResolveKeyword(instructions: string, keyword: string, ask: string -> Reply, parse: Parser): (r: Directive)
    ensures forall f :: f in r.fields ==> f in DefaultFields
    ensures ask(Request(instructions, keyword)).CallFailed? ==> r == Fallback(keyword)
  {
    GetKeywordSearchData(keyword, KeywordSearchAgent(instructions, keyword, ask, parse))
  }

  /**
   * A reply whose field list names nothing in the allow-list leaves the
   * directive with no fields at all: the list is not refilled.
   */
  lemma EmptyFieldsNotRefilled(keyword: string, tokens: seq<JsValue>, fields: seq<JsValue>)
    requires forall i :: 0 <= i < |fields| ==> !(fields[i].Str? && fields[i].s in DefaultFields)
    ensures GetKeywordSearchData(keyword, Resolved(Obj([("tokens", Arr(tokens)), ("fields", Arr(fields))]))).fields == []
  {
    var entries := [("tokens", Arr(tokens)), ("fields", Arr(fields))];
    assert Get(entries, "fields") == Arr(fields);
    assert entries[..1] == [("tokens", Arr(tokens))];
    assert Get(entries, "tokens") == Arr(tokens);
    NoDefaultFieldKept(fields);
  }

  lemma NoDefaultFieldKept(xs: seq<JsValue>)
    requires forall i :: 0 <= i < |xs| ==> !(xs[i].Str? && xs[i].s in DefaultFields)
    ensures KeepDefaultFields(xs) == []
  {
  }

  /** A null reply (unparseable text, or literally `null`) takes the fallback. */
  lemma NullReplyFallsBack(keyword: string)
    ensures GetKeywordSearchData(keyword, Resolved(Null)) == Fallback(keyword)
    ensures GetKeywordSearchData(keyword, Rejected) == Fallback(keyword)
  {
  }

  /** Every field named in the classifier's instructions is searchable; CustomerDate is searchable but never suggested. */
  lemma PromptFieldsAllowed()
    ensures forall f :: f in PromptFields ==> f in DefaultFields
    ensures "CustomerDate" in DefaultFields && "CustomerDate" !in PromptFields
    ensures |DefaultFields| == 12 && |PromptFields| == 11
  {
  }

  // ---------------------------------------------------------------------
  // The fallback split, against an independent character-level definition.
  // ---------------------------------------------------------------------

  /**
   * The text with leading and trailing spaces dropped and every inner run
   * of spaces shortened to one: read left to right, a space is written
   * only when a non-space follows an earlier non-space.
   */
  function CollapseSpaces(s: string): string {
    CollapseFrom(s, false, false)
  }

  function CollapseFrom(s: string, started: bool, pending: bool): string {
    if s == [] then ""
    else if s[0] == ' ' then CollapseFrom(s[1..], started, started)
    else (if pending then " " else "") + [s[0]] + CollapseFrom(s[1..], true, false)
  }

  lemma FirstPiece(s: string, c: char)
    ensures Split(s, [c])[0] == "" <==> (s == [] || s[0] == c)
    ensures Split(s, [c])[0] != "" ==> Split(s, [c])[0][0] == s[0]
  {
  }

  lemma JoinCons(a: string, xs: seq<string>)
    ensures Join([a] + xs, " ") == a + (if xs == [] then "" else " " + Join(xs, " "))
  {
    if xs != [] { assert ([a] + xs)[1..] == xs; }
  }

  lemma NonEmptyCons(a: string, xs: seq<string>)
    ensures NonEmpty([a] + xs) == (if a == "" then [] else [a]) + NonEmpty(xs)
  {
    assert ([a] + xs)[1..] == xs;
  }

  /** What `CollapseFrom` writes, in terms of the split: the words, with a separating space in front when one is owed. */
  function Collapsed(s: string, started: bool, pending: bool): string {
    var w := NonEmpty(Split(s, [' ']));
    if w == [] then ""
    else (if pending || (started && s[0] == ' ') then " " else "") + Join(w, " ")
  }

  lemma {:induction false} CollapseFromSplit(s: string, started: bool, pending: bool)
    requires pending ==> started
    ensures CollapseFrom(s, started, pending) == Collapsed(s, started, pending)
    decreases |s|
  {
    if s == [] {
    } else if s[0] == ' ' {
      CollapseFromSplit(s[1..], started, started);
      NonEmptyCons("", Split(s[1..], [' ']));
    } else {
      CollapseFromSplit(s[1..], true, false);
      CollapseWordStep(s, pending);
    }
  }

  lemma WordsOfWordStart(s: string)
    requires s != [] && s[0] != ' '
    ensures NonEmpty(Split(s, [' '])) == [[s[0]] + Split(s[1..], [' '])[0]] + NonEmpty(Split(s[1..], [' '])[1..])
  {
    NonEmptyCons([s[0]] + Split(s[1..], [' '])[0], Split(s[1..], [' '])[1..]);
  }
  lemma CollapsedAtWord(s: string, pending: bool)
    requires s != [] && s[0] != ' '
    ensures Collapsed(s, true, pending) == (if pending then " " else "") + Join(NonEmpty(Split(s, [' '])), " ")
  {
    WordsOfWordStart(s);
  }
  lemma CollapsedAfterWord(s1: string)
    ensures Collapsed(s1, true, false) ==
      (if Split(s1, [' '])[0] == "" then "" else Split(s1, [' '])[0])
      + (if NonEmpty(Split(s1, [' '])[1..]) == [] then "" else " " + Join(NonEmpty(Split(s1, [' '])[1..]), " "))
  {
    var rest := Split(s1, [' ']);
    var tail := NonEmpty(rest[1..]);
    assert rest == [rest[0]] + rest[1..];
    NonEmptyCons(rest[0], rest[1..]);
    FirstPiece(s1, ' ');
    if rest[0] != "" {
      JoinCons(rest[0], tail);
    } else {
      assert NonEmpty(rest) == tail;
      if s1 == [] { assert rest == [""]; }
    }
  }
  /** One step over a non-space character: it extends the first word. */
  lemma CollapseWordStep(s: string, pending: bool)
    requires s != [] && s[0] != ' '
    ensures (if pending then " " else "") + [s[0]] + Collapsed(s[1..], true, false) == Collapsed(s, true, pending)
  {
    var rest := Split(s[1..], [' ']);
    var tail := NonEmpty(rest[1..]);
    var t := if tail == [] then "" else " " + Join(tail, " ");
    var lead := if pending then " " else "";
    CollapsedAfterWord(s[1..]);
    assert Collapsed(s[1..], true, false) == rest[0] + t;
    CollapsedAtWord(s, pending);
    WordsOfWordStart(s);
    JoinCons([s[0]] + rest[0], tail);
    assert Collapsed(s, true, pending) == lead + (([s[0]] + rest[0]) + t);
    ConsAssociates(s[0], rest[0], t);
  }

  /**
   * The fallback tokens joined by single spaces are the keyword with its
   * space runs collapsed and its outer spaces removed; tabs and newlines
   * stay inside tokens.
   */
  lemma FallbackJoinIsCollapsed(keyword: string)
    ensures Join(FallbackTokens(keyword), " ") == CollapseSpaces(keyword)
  {
    CollapseFromSplit(keyword, false, false);
  }

  /** A keyword without a space character is a single token, whatever other white space it holds. */
  lemma {:induction false} NoSpaceSingleToken(keyword: string)
    requires keyword != [] && ' ' !in keyword
    ensures FallbackTokens(keyword) == [keyword]
  {
    SplitWithoutSeparator(keyword, ' ');
  }
}
