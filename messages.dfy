/**
 * Template messages to customers: `{{ key }}` placeholder substitution
 * against a case-insensitive map built from the customer record, the
 * choice of target customers, the e-mail and WhatsApp send loops with
 * their per-customer results, and WhatsApp phone formatting.
 */
module Messages {
  import opened Wrappers
  import opened Strings
  import opened Js
  import opened Sheets

  // ---------------------------------------------------------------- the placeholder map

  /** `customer[a] || customer[b] || ""`, as text. */
  function Either(customer: Entries, a: string, b: string): JsValue {
    if Truthy(Get(customer, a)) then Get(customer, a)
    else if Truthy(Get(customer, b)) then Get(customer, b)
    else Str("")
  }

  /** The aliases the map starts from. */
  function BaseMap(customer: Entries): (m: map<string, JsValue>)
    ensures m.Keys == {"name", "email", "contact", "city", "propertyType"}
  {
    map[
      "name" := Either(customer, "customerName", "name"),
      "email" := Either(customer, "Email", "Email"),
      "contact" := Either(customer, "ContactNumber", "Contact"),
      "city" := Either(customer, "City", "city"),
      "propertyType" := Either(customer, "CustomerSubType", "propertyType")]
  }

  /** The entries whose value is neither undefined nor null, in order. */
  function Present(customer: Entries): (r: Entries)
    ensures forall e :: e in r <==> e in customer && !Nullish(e.1)
  {
    if customer == [] then []
    else
      var init := customer[..|customer| - 1];
      var last := customer[|customer| - 1];
      assert customer == init + [last];
      Present(init) + (if Nullish(last.1) then [] else [last])
  }

  /** Writing into a union writes into its right operand. */
  lemma UnionUpdate<K, V>(base: map<K, V>, over: map<K, V>, k: K, v: V)
    ensures (base + over)[k := v] == base + over[k := v]
  {
  }

  lemma PresentSnoc(customer: Entries, i: nat)
    requires i < |customer|
    ensures Present(customer[..i + 1]) == Present(customer[..i]) + (if Nullish(customer[i].1) then [] else [customer[i]])
  {
    assert customer[..i + 1][..i] == customer[..i];
  }

  /** `k.toLowerCase()`. */
  function LowerKey(k: string): string { ToLower(k) }

  /** The map `replacePlaceholders` builds: the aliases, overridden by every present field under its lower-cased key. */
  function PlaceholderMap(customer: Entries): map<string, JsValue> {
    BaseMap(customer) + Normalized(Present(customer), LowerKey, Raw)
  }

  /** The `forEach` over the customer's keys, writing into the alias map. */
  method BuildMap(customer: Entries) returns (m: map<string, JsValue>)
    ensures m == PlaceholderMap(customer)
  {
    var base := BaseMap(customer);
    m := base;
    ghost var fields: map<string, JsValue> := map[];
    for i := 0 to |customer|
      invariant fields == Normalized(Present(customer[..i]), LowerKey, Raw)
      invariant m == base + fields
    {
      var e := customer[i];
      PresentSnoc(customer, i);
      ghost var pre := Present(customer[..i]);
      if !Nullish(e.1) {
        assert Present(customer[..i + 1]) == pre + [e];
        NormalizedSnoc(pre, e, LowerKey, Raw);
        UnionUpdate(base, fields, LowerKey(e.0), Raw(e.0, e.1));
        fields := fields[LowerKey(e.0) := Raw(e.0, e.1)];
        m := m[LowerKey(e.0) := Raw(e.0, e.1)];
      } else {
        assert Present(customer[..i + 1]) == pre;
      }
    }
    assert customer[..|customer|] == customer;
  }

  /**
   * A placeholder name resolves to the value of the last present field
   * whose lower-cased key it is, and only to an alias when there is none.
   */
  lemma FieldOverridesAlias(customer: Entries, k: string)
    ensures (exists i :: 0 <= i < |Present(customer)| && LowerKey(Present(customer)[i].0) == k) ==>
      (k in Normalized(Present(customer), LowerKey, Raw) && k in PlaceholderMap(customer)
       && PlaceholderMap(customer)[k] == Normalized(Present(customer), LowerKey, Raw)[k])
    ensures (forall i :: 0 <= i < |Present(customer)| ==> LowerKey(Present(customer)[i].0) != k) ==>
      (k in PlaceholderMap(customer) <==> k in BaseMap(customer))
  {
    var p := Present(customer);
    var n := Normalized(p, LowerKey, Raw);
    NormalizedMeaning(p, LowerKey, Raw, k);
    assert PlaceholderMap(customer) == BaseMap(customer) + n;
  }

  /** A lower-cased string holds no capital letter. */
  lemma LowerHasNoCapital(s: string, i: int)
    requires 0 <= i < |s|
    ensures !('A' <= ToLower(s)[i] <= 'Z')
  {
  }

  /** Lookups lower-case their key, so the alias "propertyType" is never reached. */
  lemma PropertyTypeUnreachable(key: string)
    ensures ToLower(Trim(key)) != "propertyType"
  {
    LoweredIsNotAlias(Trim(key));
  }

  lemma LoweredIsNotAlias(s: string)
    ensures ToLower(s) != "propertyType"
  {
    if |s| == 12 {
      LowerHasNoCapital(s, 8);
      assert "propertyType"[8] == 'T';
    }
  }

  // ---------------------------------------------------------------- substitution

  function NotBrace(c: char): bool { c != '}' }

  /** `map[key.trim().toLowerCase()] ?? ""` as text. */
  function Resolve(m: map<string, JsValue>, name: string): string {
    var k := ToLower(Trim(name));
    if k in m && !Nullish(m[k]) then ToJsString(m[k]) else ""
  }

  /**
   * Whether `/{{\s*([^}]+)\s*}}/` matches at the start of `t`: "{{", a
   * non-empty run without '}', then "}}". Returns the length of the run.
   */
  function MatchAt(t: string): (r: Option<nat>)
    ensures r.Some? ==> (0 < r.value && 2 + r.value + 2 <= |t| && t[..2] == "{{"
                         && t[2 + r.value] == '}' && t[2 + r.value + 1] == '}'
                         && forall i :: 2 <= i < 2 + r.value ==> t[i] != '}')
  {
    if |t| < 2 || t[..2] != "{{" then None
    else
      var inner := LongestPrefix(t[2..], NotBrace);
      if |inner| > 0 && 2 + |inner| + 2 <= |t| && t[2 + |inner| + 1] == '}' then
        assert forall i :: 2 <= i < 2 + |inner| ==> t[i] == inner[i - 2];
        Some(|inner|)
      else None
  }

  /** `text.replace(/{{\s*([^}]+)\s*}}/g, …)`: one left-to-right pass, each match replaced by its resolved value. */
  function Substitute(t: string, m: map<string, JsValue>): string
    decreases |t|
  {
    if t == [] then []
    else
      match MatchAt(t)
      case Some(n) => Resolve(m, t[2..2 + n]) + Substitute(t[2 + n + 2..], m)
      case None => [t[0]] + Substitute(t[1..], m)
  }

  /** Text where "{{" never occurs. */
  predicate NoOpening(t: string) {
    forall i :: 0 <= i < |t| - 1 ==> !(t[i] == '{' && t[i + 1] == '{')
  }

  /** Text without a placeholder comes back unchanged. */
  lemma {:induction false} NoPlaceholderUnchanged(t: string, m: map<string, JsValue>)
    requires NoOpening(t)
    ensures Substitute(t, m) == t
  {
    if t != [] {
      assert MatchAt(t).None? by {
        if |t| >= 2 { assert !(t[0] == '{' && t[1] == '{'); }
      }
      assert NoOpening(t[1..]) by {
        assert forall i :: 0 <= i < |t| - 1 ==> t[1..][i] == t[i + 1];
      }
      NoPlaceholderUnchanged(t[1..], m);
    }
  }

  /**
   * Substitution is single-pass: a placeholder is replaced by its value and
   * scanning resumes after the placeholder, so text the value brings in
   * (another "{{ … }}" included) is never expanded.
   */
  lemma SubstituteOnePlaceholder(name: string, rest: string, m: map<string, JsValue>)
    requires name != [] && '}' !in name
    ensures Substitute("{{" + name + "}}" + rest, m) == Resolve(m, name) + Substitute(rest, m)
  {
    var t := "{{" + name + "}}" + rest;
    PlaceholderMatches(name, rest);
    SubstituteAtMatch(t, |name|, m);
    assert t[2..2 + |name|] == name;
    assert t[2 + |name| + 2..] == rest;
  }

  lemma SubstituteAtMatch(t: string, n: nat, m: map<string, JsValue>)
    requires MatchAt(t) == Some(n)
    ensures Substitute(t, m) == Resolve(m, t[2..2 + n]) + Substitute(t[2 + n + 2..], m)
  {
  }

  lemma PlaceholderMatches(name: string, rest: string)
    requires name != [] && '}' !in name
    ensures MatchAt("{{" + name + "}}" + rest) == Some(|name|)
  {
    var t := "{{" + name + "}}" + rest;
    assert t[..2] == "{{";
    var after := t[2..];
    assert after == name + "}}" + rest;
    var inner := LongestPrefix(after, NotBrace);
    assert forall i :: 0 <= i < |name| ==> NotBrace(after[i]);
    assert !NotBrace(after[|name|]);
    assert |inner| == |name|;
    assert t[2 + |name| + 1] == '}';
  }

  /**
   * `replacePlaceholders(templateText, customer)`: a falsy text is returned
   * unchanged; any other text is substituted once over the customer's map.
   */
  function ReplacePlaceholders(text: Option<string>, customer: Entries): (r: Option<string>)
    ensures text.None? || text == Some("") ==> r == text
    ensures r.Some? <==> text.Some?
    ensures text.Some? && text.value != "" ==> r == Some(Substitute(text.value, PlaceholderMap(customer)))
    ensures text.Some? && NoOpening(text.value) ==> r == text
  {
    if text.None? || text.value == "" then text
    else
      if NoOpening(text.value) then NoPlaceholderUnchanged(text.value, PlaceholderMap(customer)); Some(Substitute(text.value, PlaceholderMap(customer)))
      else Some(Substitute(text.value, PlaceholderMap(customer)))
  }

  // ---------------------------------------------------------------- targets

  /**
   * `fetchTargetCustomers`: everyone when the body's `sendToAll` is truthy
   * (it defaults to false, so an absent flag is `Undefined`); otherwise the
   * stored customers whose id is listed.
   */
  function TargetCustomers(customerIds: JsValue, sendToAll: JsValue, table: seq<Entries>): (r: seq<Entries>)
    ensures Truthy(sendToAll) ==> r == table
    ensures !Truthy(sendToAll) && (!customerIds.Arr? || customerIds.items == []) ==> r == []
    ensures forall c :: c in r ==> c in table
    ensures !Truthy(sendToAll) && customerIds.Arr? ==> forall c :: c in r <==> c in table && Get(c, "id") in customerIds.items
  {
    if Truthy(sendToAll) then table
    else if !customerIds.Arr? || customerIds.items == [] then []
    else Listed(table, customerIds.items)
  }

  /**
   * The flag is tested for truthiness, not compared with `true`: the text
   * "false" sends to every customer, while the boolean false and an absent
   * flag send to nobody when no id is listed.
   */
  lemma TextFalseSendsToAll(table: seq<Entries>)
    ensures TargetCustomers(Arr([]), Str("false"), table) == table
    ensures TargetCustomers(Arr([]), Bool(false), table) == []
    ensures TargetCustomers(Arr([]), Undefined, table) == []
  {
  }

  /** The rows whose id is among `ids`, in table order. */
  function Listed(table: seq<Entries>, ids: seq<JsValue>): (r: seq<Entries>)
    ensures forall c :: c in r <==> c in table && Get(c, "id") in ids
  {
    if table == [] then []
    else (if Get(table[0], "id") in ids then [table[0]] else []) + Listed(table[1..], ids)
  }

  // ---------------------------------------------------------------- sending

  /** One entry of `results`. */
  datatype SendResult =
    | SkippedNoAddress(id: JsValue)
    | Sent(id: JsValue, to: string, subject: Option<string>, body: Option<string>)
    | Failed(id: JsValue)

  /** A stored template. */
  datatype Template = Template(kind: string, subject: Option<string>, body: Option<string>)

  /** The result for customer `c` of the e-mail loop; `delivered` is whether the mailer accepted the message. */
  function EmailResult(t: Template, c: Entries, delivered: bool): (r: SendResult)
    ensures r.SkippedNoAddress? <==> !Truthy(Get(c, "Email"))
    ensures r.Sent? <==> Truthy(Get(c, "Email")) && delivered
    ensures r.Failed? <==> Truthy(Get(c, "Email")) && !delivered
    ensures r.id == Get(c, "id")
    ensures r.Sent? ==> (r.to == ToJsString(Get(c, "Email")) && r.subject == ReplacePlaceholders(t.subject, c)
                         && r.body == ReplacePlaceholders(t.body, c))
  {
    var email := Get(c, "Email");
    if !Truthy(email) then SkippedNoAddress(Get(c, "id"))
    else if delivered then
      Sent(Get(c, "id"), ToJsString(email), ReplacePlaceholders(t.subject, c), ReplacePlaceholders(t.body, c))
    else Failed(Get(c, "id"))
  }

  /** `phone.startsWith("+") ? phone : (DEFAULT_COUNTRY_CODE || "+91") + phone`. */
  function FormatPhone(phone: string, defaultCode: Option<string>): (r: string)
    ensures StartsWith(phone, "+") ==> r == phone
    ensures !StartsWith(phone, "+") && (defaultCode.None? || defaultCode.value == "") ==> r == "+91" + phone
    ensures !StartsWith(phone, "+") && defaultCode.Some? && defaultCode.value != "" ==> r == defaultCode.value + phone
  {
    if StartsWith(phone, "+") then phone
    else (if defaultCode.Some? && defaultCode.value != "" then defaultCode.value else "+91") + phone
  }

  /** Formatting never changes an already international number, and the number always ends the result. */
  lemma FormatPhoneKeepsNumber(phone: string, defaultCode: Option<string>)
    ensures FormatPhone(FormatPhone(phone, defaultCode), defaultCode) == FormatPhone(phone, defaultCode)
      || !StartsWith(FormatPhone(phone, defaultCode), "+")
    ensures |phone| <= |FormatPhone(phone, defaultCode)|
      && FormatPhone(phone, defaultCode)[|FormatPhone(phone, defaultCode)| - |phone|..] == phone
  {
  }

  /**
   * The result for customer `c` of the WhatsApp loop. A ContactNumber that
   * is not text has no `startsWith`, so that customer fails.
   */
  function WhatsAppResult(t: Template, c: Entries, defaultCode: Option<string>, delivered: bool): (r: SendResult)
    ensures r.SkippedNoAddress? <==> !Truthy(Get(c, "ContactNumber"))
    ensures r.Sent? <==> Truthy(Get(c, "ContactNumber")) && Get(c, "ContactNumber").Str? && delivered
    ensures r.Failed? <==> Truthy(Get(c, "ContactNumber")) && (!Get(c, "ContactNumber").Str? || !delivered)
    ensures r.id == Get(c, "id")
    ensures r.Sent? ==> (r.to == FormatPhone(Get(c, "ContactNumber").s, defaultCode) && r.subject.None?
                         && r.body == ReplacePlaceholders(t.body, c))
  {
    var phone := Get(c, "ContactNumber");
    if !Truthy(phone) then SkippedNoAddress(Get(c, "id"))
    else if phone.Str? && delivered then
      Sent(Get(c, "id"), FormatPhone(phone.s, defaultCode), None, ReplacePlaceholders(t.body, c))
    else Failed(Get(c, "id"))
  }

  /** The results of the first `n` customers of a loop, given the result of each. */
  function Results(cs: seq<Entries>, result: (Entries, nat) -> SendResult, n: nat): (r: seq<SendResult>)
    requires n <= |cs|
    ensures |r| == n
    ensures forall i :: 0 <= i < n ==> r[i] == result(cs[i], i)
  {
    if n == 0 then [] else Results(cs, result, n - 1) + [result(cs[n - 1], n - 1)]
  }

  /** `results.filter((r) => r.status === "sent").length`. */
  function SentCount(results: seq<SendResult>): (k: nat)
    ensures k <= |results|
  {
    if results == [] then 0 else SentCount(results[..|results| - 1]) + (if results[|results| - 1].Sent? then 1 else 0)
  }

  /** The sent count is the number of customers whose result is a send. */
  lemma {:induction false} SentCountOfResults(cs: seq<Entries>, result: (Entries, nat) -> SendResult, n: nat)
    requires n <= |cs|
    ensures SentCount(Results(cs, result, n)) == |set i | 0 <= i < n && result(cs[i], i).Sent?|
  {
    var sent := set i | 0 <= i < n && result(cs[i], i).Sent?;
    if n == 0 {
      assert sent == {};
    } else {
      SentCountOfResults(cs, result, n - 1);
      assert Results(cs, result, n) == Results(cs, result, n - 1) + [result(cs[n - 1], n - 1)];
      SentCountSnoc(Results(cs, result, n - 1), result(cs[n - 1], n - 1));
      SentIndicesStep(cs, result, n);
    }
  }

  lemma SentCountSnoc(rs: seq<SendResult>, x: SendResult)
    ensures SentCount(rs + [x]) == SentCount(rs) + (if x.Sent? then 1 else 0)
  {
    assert (rs + [x])[..|rs|] == rs;
  }

  /** Counting the sending customers among the first `n` adds one exactly when customer `n - 1` was sent to. */
  lemma SentIndicesStep(cs: seq<Entries>, result: (Entries, nat) -> SendResult, n: nat)
    requires 0 < n <= |cs|
    ensures |set i | 0 <= i < n && result(cs[i], i).Sent?|
         == |set i | 0 <= i < n - 1 && result(cs[i], i).Sent?| + (if result(cs[n - 1], n - 1).Sent? then 1 else 0)
  {
    var s := set i | 0 <= i < n - 1 && result(cs[i], i).Sent?;
    var s' := set i | 0 <= i < n && result(cs[i], i).Sent?;
    if result(cs[n - 1], n - 1).Sent? {
      assert s' == s + {n - 1};
    } else {
      assert s' == s;
    }
  }

  /** The send loop: one result per customer, in order; `result` covers the skip, the send and the caught failure. */
  method SendLoop(cs: seq<Entries>, result: (Entries, nat) -> SendResult) returns (results: seq<SendResult>, sent: nat)
    ensures results == Results(cs, result, |cs|)
    ensures sent == SentCount(results)
  {
    results := [];
    for i := 0 to |cs|
      invariant results == Results(cs, result, i)
    {
      results := results + [result(cs[i], i)];
    }
    sent := SentCount(results);
  }

  /** The per-customer result of the loop of a template kind; `delivered(i)` is whether the `i`th send was accepted. */
  function ResultFor(kind: string, t: Template, defaultCode: Option<string>, delivered: nat -> bool): (Entries, nat) -> SendResult {
    if kind == "email" then (c: Entries, i: nat) => EmailResult(t, c, delivered(i))
    else (c: Entries, i: nat) => WhatsAppResult(t, c, defaultCode, delivered(i))
  }

  /** The response of a send handler: the sent count and the per-customer results. */
  datatype Report = Report(sent: nat, results: seq<SendResult>)

  /**
   * `sendEmailByTemplate` / `sendWhatsAppByTemplate`: 400 without a
   * template id, 404 for an unknown template, 400 for a template of the
   * other kind, 404 when no customer is targeted; otherwise one result per
   * targeted customer.
   */
  method SendByTemplate(kind: string, templateId: JsValue, found: Option<Template>, customerIds: JsValue, sendToAll: JsValue,
                        table: seq<Entries>, defaultCode: Option<string>, delivered: nat -> bool)
    returns (r: Outcome<Report>)
    requires kind == "email" || kind == "whatsapp"
    ensures !Truthy(templateId) ==> r == Fail(400)
    ensures Truthy(templateId) && found.None? ==> r == Fail(404)
    ensures Truthy(templateId) && found.Some? && found.value.kind != kind ==> r == Fail(400)
    ensures Truthy(templateId) && found.Some? && found.value.kind == kind && TargetCustomers(customerIds, sendToAll, table) == [] ==> r == Fail(404)
    ensures r.Done? <==> Truthy(templateId) && found.Some? && found.value.kind == kind && TargetCustomers(customerIds, sendToAll, table) != []
    ensures r.Done? ==> (|r.value.results| == |TargetCustomers(customerIds, sendToAll, table)|
                         && r.value.sent == SentCount(r.value.results))
    ensures r.Done? ==> r.value.results == Results(TargetCustomers(customerIds, sendToAll, table),
                                                   ResultFor(kind, found.value, defaultCode, delivered),
                                                   |TargetCustomers(customerIds, sendToAll, table)|)
    ensures r.Done? ==> r.value.sent == |set i | 0 <= i < |TargetCustomers(customerIds, sendToAll, table)|
                                           && ResultFor(kind, found.value, defaultCode, delivered)(TargetCustomers(customerIds, sendToAll, table)[i], i).Sent?|
  {
    if !Truthy(templateId) {
      return Fail(400);
    }
    if found.None? {
      return Fail(404);
    }
    var t := found.value;
    if t.kind != kind {
      return Fail(400);
    }
    var customers := TargetCustomers(customerIds, sendToAll, table);
    if customers == [] {
      return Fail(404);
    }
    var results, sent := SendLoop(customers, ResultFor(kind, t, defaultCode, delivered));
    SentCountOfResults(customers, ResultFor(kind, t, defaultCode, delivered), |customers|);
    r := Done(Report(sent, results));
  }
}
