/**
 * The keyword-search agent: one request to the generative model, whose
 * reply is stripped of Markdown code fences and parsed as JSON.
 * The model call and `JSON.parse` are parameters of the model.
 */
module Agent {
  import opened Wrappers
  import opened Strings
  import opened Js

  /** What the generative-model call gives back: it failed, or it answered with an optional text. */
  datatype Reply = CallFailed | Answered(text: Option<string>)

  /** A promise returned by the agent: rejected, or resolved to a parsed value. */
  datatype AgentResult = Rejected | Resolved(value: JsValue)

  /** `JSON.parse` as a partial function: `None` is a thrown SyntaxError. */
  type Parser = string -> Option<JsValue>

  const Fence: string := "```"
  const JsonFence: string := "```json"

  /** Three backticks in a row start at `i`. */
  predicate FenceAt(s: string, i: int) {
    0 <= i && i + 3 <= |s| && s[i] == '`' && s[i + 1] == '`' && s[i + 2] == '`'
  }

  predicate NoFence(s: string) {
    forall i :: 0 <= i < |s| ==> !FenceAt(s, i)
  }

  lemma JsonFenceStartsWithFence(s: string, i: int)
    ensures OccursAt(s, JsonFence, i) ==> FenceAt(s, i)
  {
    if OccursAt(s, JsonFence, i) { assert s[i..i + 7][..3] == Fence; }
  }

  lemma NoFenceMeansNotContained(s: string)
    requires NoFence(s)
    ensures !Contains(s, Fence) && !Contains(s, JsonFence)
  {
    forall i | 0 <= i <= |s| - 3 ensures !OccursAt(s, Fence, i) && !OccursAt(s, JsonFence, i) {
      assert !FenceAt(s, i);
      JsonFenceStartsWithFence(s, i);
    }
  }

  /** Removing the three-backtick fence keeps a first character that is not a backtick. */
  lemma FirstCharKept(s: string)
    requires s != [] && s[0] != '`'
    ensures RemoveAll(s, Fence) != [] && RemoveAll(s, Fence)[0] == s[0]
  {
    if |s| >= 3 { assert s[..3][0] == s[0]; }
  }

  /**
   * After `replace(/```/g, "")` no three backticks are left: the removal
   * scans left to right, so every run of backticks keeps fewer than three.
   */
  lemma {:induction false} RemovalLeavesNoFence(s: string)
    ensures NoFence(RemoveAll(s, Fence))
    decreases |s|
  {
    var r := RemoveAll(s, Fence);
    if |s| < 3 {
    } else if s[..3] == Fence {
      RemovalLeavesNoFence(s[3..]);
    } else {
      var t := RemoveAll(s[1..], Fence);
      RemovalLeavesNoFence(s[1..]);
      assert r == [s[0]] + t;
      assert !FenceAt(r, 0) by {
        if s[0] == '`' {
          if s[1] != '`' {
            FirstCharKept(s[1..]);
          } else {
            assert s[2] != '`' by { assert s[..3] == [s[0], s[1], s[2]]; }
            if |s| == 3 {
              assert t == s[1..];
            } else {
              assert s[1..][..3] != Fence by { assert s[1..][..3][1] == s[2]; }
              assert t == [s[1]] + RemoveAll(s[2..], Fence);
              FirstCharKept(s[2..]);
            }
          }
        }
      }
      forall i | 1 <= i < |r| ensures !FenceAt(r, i) {
        assert !FenceAt(t, i - 1);
      }
    }
  }

  /** The text handed to `JSON.parse`: both fence forms removed, then trimmed. */
  function StripFences(raw: string): (r: string) {
    Trim(RemoveAll(RemoveAll(raw, JsonFence), Fence))
  }

  /** What reaches `JSON.parse` holds no fence of either form and no surrounding white space. */
  lemma StrippedHasNoFence(raw: string)
    ensures NoFence(StripFences(raw))
    ensures !Contains(StripFences(raw), Fence) && !Contains(StripFences(raw), JsonFence)
  {
    var both := RemoveAll(RemoveAll(raw, JsonFence), Fence);
    RemovalLeavesNoFence(RemoveAll(raw, JsonFence));
    TrimKeepsNoFence(both);
    NoFenceMeansNotContained(StripFences(raw));
  }

  /** Trimming cuts an infix, so it brings no fence in. */
  lemma TrimKeepsNoFence(s: string)
    requires NoFence(s)
    ensures NoFence(Trim(s))
  {
    var t := TrimStart(s);
    NoFenceDrop(s, |s| - |t|);
    NoFenceTake(t, |TrimEnd(t)|);
  }

  lemma NoFenceDrop(s: string, a: nat)
    requires NoFence(s) && a <= |s|
    ensures NoFence(s[a..])
  {
    forall i | 0 <= i < |s[a..]| ensures !FenceAt(s[a..], i) {
      assert !FenceAt(s, a + i);
    }
  }

  lemma NoFenceTake(s: string, b: nat)
    requires NoFence(s) && b <= |s|
    ensures NoFence(s[..b])
  {
    forall i | 0 <= i < b ensures !FenceAt(s[..b], i) {
      assert !FenceAt(s, i);
    }
  }

  /** Stripping a stripped text changes nothing. */
  lemma StripFencesIdempotent(raw: string)
    ensures StripFences(StripFences(raw)) == StripFences(raw)
  {
    var x := StripFences(raw);
    StrippedHasNoFence(raw);
    RemoveAbsent(x, JsonFence);
    RemoveAbsent(x, Fence);
    TrimmedIsFixed(x);
  }

  /** `safeJsonParse(raw)`: null for a missing or empty text and for text that does not parse. */
  function SafeJsonParse(raw: Option<string>, parse: Parser): (r: JsValue)
    ensures (raw == None || raw == Some("")) ==> r == Null
    ensures raw.Some? && raw.value != "" && parse(StripFences(raw.value)).Some? ==> r == parse(StripFences(raw.value)).value
    ensures raw.Some? && parse(StripFences(raw.value)).None? ==> r == Null
  {
    match raw
    case None => Null
    case Some(text) =>
      if text == "" then Null
      else
        match parse(StripFences(text))
        case None => Null
        case Some(v) => v
  }

  /** The request text: the instructions, a blank line, a label, then the user's input verbatim. */
  function Request(instructions: string, userPrompt: string): (r: string)
    ensures |r| >= |userPrompt| && r[|r| - |userPrompt|..] == userPrompt
    ensures StartsWith(r, instructions)
  {
    instructions + "\n\nUser input:\n" + userPrompt
  }

  /**
   * `keywordSearchAgent(userPrompt)`: rejects when the call fails or the reply
   * text is missing or blank, otherwise resolves to the safely parsed reply.
   */
  function KeywordSearchAgent(instructions: string, userPrompt: string, ask: string -> Reply, parse: Parser): (r: AgentResult)
    ensures r.Rejected? <==>
      (ask(Request(instructions, userPrompt)).CallFailed?
       || ask(Request(instructions, userPrompt)).text.None?
       || Trim(ask(Request(instructions, userPrompt)).text.value) == "")
    ensures r.Resolved? ==> r.value == SafeJsonParse(ask(Request(instructions, userPrompt)).text, parse)
  {
    match ask(Request(instructions, userPrompt))
    case CallFailed => Rejected
    case Answered(None) => Rejected
    case Answered(Some(raw)) =>
      if raw == "" || Trim(raw) == "" then Rejected else Resolved(SafeJsonParse(Some(raw), parse))
  }

  /** A parser that, like `JSON.parse`, rejects text whose first character cannot start a JSON value. */
  ghost predicate RejectsNonJsonStart(parse: Parser) {
    forall t :: t != [] && t[0] !in "{[\"-0123456789tfn" && !IsSpace(t[0]) ==> parse(t) == None
  }

  /**
   * A reply fenced with an upper-case language tag keeps the tag: the
   * lower-case-only pattern leaves "JSON" in front of the body.
   */
  lemma UpperCaseTagKept()
    ensures StripFences("```JSON\n{}\n```") == "JSON\n{}"
  {
    var raw := "```JSON\n{}\n```";
    assert forall k :: 0 <= k < |raw| ==> raw[k] != 'j';
    forall i | 0 <= i <= |raw| - 7 ensures !OccursAt(raw, JsonFence, i) {
      assert raw[i..i + 7][3] == raw[i + 3];
    }
    RemoveAbsent(raw, JsonFence);
    FencesAroundBodyRemoved();
    TrailingNewlineTrimmed();
  }

  lemma FencesAroundBodyRemoved()
    ensures RemoveAll("```JSON\n{}\n```", Fence) == "JSON\n{}\n"
  {
    var body := "JSON\n{}\n";
    assert "```JSON\n{}\n```" == Fence + (body + Fence);
    RemoveLeading(Fence, body + Fence);
    RemoveKeepsPrefix(body, Fence, Fence);
    RemoveLeading(Fence, "");
    assert Fence + "" == Fence;
  }

  lemma TrailingNewlineTrimmed()
    ensures Trim("JSON\n{}\n") == "JSON\n{}"
  {
    var body := "JSON\n{}\n";
    assert TrimStart(body) == body;
    assert body[..|body| - 1] == "JSON\n{}";
    assert TrimEnd("JSON\n{}") == "JSON\n{}";
  }

  /** A parser that rejects text starting with 'J' makes the safe parse of any reply that cleans to such text null. */
  lemma CleanedToJNull(raw: string, parse: Parser)
    requires RejectsNonJsonStart(parse)
    requires StripFences(raw) != [] && StripFences(raw)[0] == 'J'
    ensures SafeJsonParse(Some(raw), parse) == Null
  {
    LeadingJRejected(StripFences(raw), parse);
  }

  lemma LeadingJRejected(t: string, parse: Parser)
    requires RejectsNonJsonStart(parse)
    requires t != [] && t[0] == 'J'
    ensures parse(t) == None
  {
    assert !IsSpace(t[0]) && t[0] !in "{[\"-0123456789tfn";
  }

  /** So a parser that behaves like `JSON.parse` fails on it and the agent resolves to null. */
  lemma UpperCaseTagDefeatsParse(parse: Parser)
    requires RejectsNonJsonStart(parse)
    ensures SafeJsonParse(Some("```JSON\n{}\n```"), parse) == Null
  {
    UpperCaseTagKept();
    CleanedToJNull("```JSON\n{}\n```", parse);
  }
}
