/**
 * The request validators: each is a chain of rules per body field, every
 * rule that fails reporting one failure (rules do not stop at the first
 * failure), and a request passes when no rule fails. E-mail and phone
 * syntax are library checks, given here as predicates.
 */
module Validators {
  import opened Strings
  import opened Js

  type Body = map<string, JsValue>

  /** The message a failed rule reports. */
  datatype Message =
    | EmailRequired | EmailInvalid | PasswordRequired | PasswordTooShort | PhoneInvalid
    | NameRequired | NameTooShort | RoleRequired | RoleInvalid | CityTooShort | AddressTooShort | StatusInvalid
    | CurrentPasswordTooShort | NewPasswordRequired | NewPasswordTooShort
    | PasswordWeak | Required(name: string) | TooShort(name: string) | FullNameEmpty
    | CustomerEmailInvalid | CampaignRequired | ContactNumberRequired | ContactNumberInvalid | NotAString(field: string)

  /** The text of each message as the client receives it. */
  function Text(m: Message): string {
    match m
    case EmailRequired => "Email is required"
    case EmailInvalid => "Please provide a valid email address"
    case PasswordRequired => "Password is required"
    case PasswordTooShort => "Password must be at least 6 characters long"
    case PhoneInvalid => "Please provide a valid phone number"
    case NameRequired => "Name is required"
    case NameTooShort => "Name must be at least 2 characters long"
    case RoleRequired => "Role is required"
    case RoleInvalid => "Invalid role. Must be administrator, city_admin, or user"
    case CityTooShort => "City name must be at least 2 characters long"
    case AddressTooShort => "Address Line 1 must be at least 3 characters long"
    case StatusInvalid => "Status must be either 'Active' or 'Inactive'"
    case CurrentPasswordTooShort => "Current password must be at least 6 characters long"
    case NewPasswordRequired => "New password is required"
    case NewPasswordTooShort => "New password must be at least 6 characters long"
    case FullNameEmpty => "Full name cannot be empty"
    case CustomerEmailInvalid => "Email must be a valid email address"
    case CampaignRequired => "Campaign is required"
    case ContactNumberRequired => "ContactNumber is required"
    case ContactNumberInvalid => "ContactNumber must be a valid 10-digit number"
    case PasswordWeak =>
      "Password must be at least 6 characters long and include one uppercase letter, one number, and one special character"
    case Required(name) => name + " is required"
    case TooShort(name) => name + " must be at least 3 characters long"
    case NotAString(field) => field + " must be a string"
  }

  /** One failed rule: the field it checks and its message. */
  datatype Failure = Failure(field: string, message: Message)

  /** The text a rule sees: empty for undefined and null, `String(v)` otherwise. */
  function FieldText(v: JsValue): (r: string)
    ensures v.Str? ==> r == v.s
    ensures Nullish(v) ==> r == ""
  {
    if Nullish(v) then "" else ToJsString(v)
  }

  /** `notEmpty()`. */
  predicate NotEmpty(v: JsValue) {
    FieldText(v) != ""
  }

  /** `optional()` skips a field only when it is undefined. */
  predicate Skipped(v: JsValue) {
    v.Undefined?
  }

  /** One rule: no failure when it holds, its failure otherwise. */
  function Rule(ok: bool, field: string, message: Message): (r: seq<Failure>)
    ensures r == [] <==> ok
    ensures !ok ==> r == [Failure(field, message)]
  {
    if ok then [] else [Failure(field, message)]
  }

  // ---------------------------------------------------------------- administrators

  const AdminRoles: set<string> := {"administrator", "city_admin", "user"}
  const AdminStatuses: set<string> := {"Active", "Inactive"}

  /** A trimmed field of at least `n` characters; `trim()` runs before the length check. */
  predicate TrimmedAtLeast(v: JsValue, n: nat) {
    |Trim(FieldText(v))| >= n
  }

  /** The e-mail rules shared by login and creation: required and well-formed. */
  function RequiredEmail(body: Body, isEmail: string -> bool): (r: seq<Failure>)
    ensures r == [] <==> NotEmpty(Lookup(body, "email")) && isEmail(FieldText(Lookup(body, "email")))
  {
    Rule(NotEmpty(Lookup(body, "email")), "email", EmailRequired)
    + Rule(isEmail(FieldText(Lookup(body, "email"))), "email", EmailInvalid)
  }

  /** The password rules of login and creation: required and at least six characters. */
  function RequiredPassword(body: Body): (r: seq<Failure>)
    ensures r == [] <==> |FieldText(Lookup(body, "password"))| >= 6
    ensures Nullish(Lookup(body, "password")) ==>
      r == [Failure("password", PasswordRequired), Failure("password", PasswordTooShort)]
  {
    Rule(NotEmpty(Lookup(body, "password")), "password", PasswordRequired)
    + Rule(|FieldText(Lookup(body, "password"))| >= 6, "password", PasswordTooShort)
  }

  /** `adminValidator` (login and signup): a well-formed e-mail and a password of six or more characters. */
  function AdminLoginFailures(body: Body, isEmail: string -> bool): (r: seq<Failure>)
    ensures r == [] <==> NotEmpty(Lookup(body, "email")) && isEmail(FieldText(Lookup(body, "email")))
                         && |FieldText(Lookup(body, "password"))| >= 6
  {
    RequiredEmail(body, isEmail) + RequiredPassword(body)
  }

  /** An optional trimmed field of at least `n` characters. */
  function OptionalTrimmed(body: Body, field: string, n: nat, message: Message): (r: seq<Failure>)
    ensures r == [] <==> Skipped(Lookup(body, field)) || TrimmedAtLeast(Lookup(body, field), n)
  {
    if Skipped(Lookup(body, field)) then [] else Rule(TrimmedAtLeast(Lookup(body, field), n), field, message)
  }

  /** An optional phone number, trimmed, that the phone check accepts. */
  function OptionalPhone(body: Body, isMobilePhone: string -> bool): (r: seq<Failure>)
    ensures r == [] <==> Skipped(Lookup(body, "phone")) || isMobilePhone(Trim(FieldText(Lookup(body, "phone"))))
  {
    if Skipped(Lookup(body, "phone")) then []
    else Rule(isMobilePhone(Trim(FieldText(Lookup(body, "phone")))), "phone", PhoneInvalid)
  }

  /** The name rules of creation: required, and two or more characters once trimmed. */
  function RequiredAdminName(body: Body): (r: seq<Failure>)
    ensures r == [] <==> TrimmedAtLeast(Lookup(body, "name"), 2)
  {
    var name := Lookup(body, "name");
    Rule(NotEmpty(name), "name", NameRequired) + Rule(TrimmedAtLeast(name, 2), "name", NameTooShort)
  }

  /** The role rules of creation: required, and one of the three roles. */
  function RequiredRole(body: Body): (r: seq<Failure>)
    ensures r == [] <==> FieldText(Lookup(body, "role")) in AdminRoles
  {
    var role := Lookup(body, "role");
    Rule(NotEmpty(role), "role", RoleRequired) + Rule(FieldText(role) in AdminRoles, "role", RoleInvalid)
  }

  /**
   * `createAdminValidator`: a name of two or more characters once trimmed,
   * a well-formed e-mail, a password of six or more characters, one of the
   * three roles, and, when sent, a city of two or more characters, a phone
   * number and a first address line of three or more characters.
   */
  function CreateAdminFailures(body: Body, isEmail: string -> bool, isMobilePhone: string -> bool): (r: seq<Failure>)
    ensures r == [] <==> (
      TrimmedAtLeast(Lookup(body, "name"), 2)
      && NotEmpty(Lookup(body, "email")) && isEmail(FieldText(Lookup(body, "email")))
      && |FieldText(Lookup(body, "password"))| >= 6
      && FieldText(Lookup(body, "role")) in AdminRoles
      && (Skipped(Lookup(body, "city")) || TrimmedAtLeast(Lookup(body, "city"), 2))
      && (Skipped(Lookup(body, "phone")) || isMobilePhone(Trim(FieldText(Lookup(body, "phone")))))
      && (Skipped(Lookup(body, "AddressLine1")) || TrimmedAtLeast(Lookup(body, "AddressLine1"), 3)))
  {
    RequiredAdminName(body) + RequiredEmail(body, isEmail) + RequiredPassword(body) + RequiredRole(body)
    + OptionalTrimmed(body, "city", 2, CityTooShort)
    + OptionalPhone(body, isMobilePhone)
    + OptionalTrimmed(body, "AddressLine1", 3, AddressTooShort)
  }

  /**
   * `updateAdminValidator`: every field optional; a sent name of two or
   * more characters once trimmed, a well-formed e-mail, a phone number, a
   * first address line of three or more and a city of two or more
   * characters, and a status that is Active or Inactive.
   */
  function UpdateAdminFailures(body: Body, isEmail: string -> bool, isMobilePhone: string -> bool): (r: seq<Failure>)
    ensures r == [] <==> (
      (Skipped(Lookup(body, "name")) || TrimmedAtLeast(Lookup(body, "name"), 2))
      && (Skipped(Lookup(body, "email")) || isEmail(FieldText(Lookup(body, "email"))))
      && (Skipped(Lookup(body, "phone")) || isMobilePhone(Trim(FieldText(Lookup(body, "phone")))))
      && (Skipped(Lookup(body, "AddressLine1")) || TrimmedAtLeast(Lookup(body, "AddressLine1"), 3))
      && (Skipped(Lookup(body, "city")) || TrimmedAtLeast(Lookup(body, "city"), 2))
      && (Skipped(Lookup(body, "status")) || FieldText(Lookup(body, "status")) in AdminStatuses))
  {
    var email := Lookup(body, "email");
    var status := Lookup(body, "status");
    OptionalTrimmed(body, "name", 2, NameTooShort)
    + (if Skipped(email) then [] else Rule(isEmail(FieldText(email)), "email", EmailInvalid))
    + OptionalPhone(body, isMobilePhone)
    + OptionalTrimmed(body, "AddressLine1", 3, AddressTooShort)
    + OptionalTrimmed(body, "city", 2, CityTooShort)
    + (if Skipped(status) then [] else Rule(FieldText(status) in AdminStatuses, "status", StatusInvalid))
  }

  /** An update that sends nothing passes. */
  lemma EmptyAdminUpdatePasses(isEmail: string -> bool, isMobilePhone: string -> bool)
    ensures UpdateAdminFailures(map[], isEmail, isMobilePhone) == []
  {
  }

  /** A status sent as null is not skipped, so it fails. */
  lemma NullStatusRefused(body: Body, isEmail: string -> bool, isMobilePhone: string -> bool)
    requires "status" in body && body["status"] == Null
    ensures Failure("status", StatusInvalid) in UpdateAdminFailures(body, isEmail, isMobilePhone)
  {
    var r := UpdateAdminFailures(body, isEmail, isMobilePhone);
    var tail := Rule(FieldText(Null) in AdminStatuses, "status", StatusInvalid);
    assert FieldText(Null) == "";
    assert r[|r| - 1..] == tail;
  }

  /** `updatePasswordValidator`: a new password of six or more characters and, when sent, a current one of six or more. */
  function PasswordChangeFailures(body: Body): (r: seq<Failure>)
    ensures r == [] <==> (
      (Skipped(Lookup(body, "currentPassword")) || |FieldText(Lookup(body, "currentPassword"))| >= 6)
      && |FieldText(Lookup(body, "newPassword"))| >= 6)
  {
    var current := Lookup(body, "currentPassword");
    var newPassword := Lookup(body, "newPassword");
    (if Skipped(current) then [] else Rule(|FieldText(current)| >= 6, "currentPassword", CurrentPasswordTooShort))
    + Rule(NotEmpty(newPassword), "newPassword", NewPasswordRequired)
    + Rule(|FieldText(newPassword)| >= 6, "newPassword", NewPasswordTooShort)
  }

  // ---------------------------------------------------------------- users

  predicate IsUpper(c: char) { 'A' <= c <= 'Z' }
  predicate IsSpecial(c: char) { c in "!@#$%^&*" }
  /** The characters `.` does not match. */
  predicate IsLineBreak(c: char) { c == '\n' || c == '\r' || c == '\U{2028}' || c == '\U{2029}' }

  /**
   * What `strongPasswordRegex` accepts: six or more characters, none a
   * line break, with an upper-case letter, a digit and one of `!@#$%^&*`.
   */
  predicate StrongPassword(p: string) {
    |p| >= 6
    && (forall i :: 0 <= i < |p| ==> !IsLineBreak(p[i]))
    && (exists i :: 0 <= i < |p| && IsUpper(p[i]))
    && (exists i :: 0 <= i < |p| && IsDigit(p[i]))
    && (exists i :: 0 <= i < |p| && IsSpecial(p[i]))
  }

  /** What one pass over a password has seen. */
  datatype Seen = Seen(upper: bool, digit: bool, special: bool, lineBreak: bool)

  /** One left-to-right pass collecting the character classes of the regex. */
  function Scan(p: string): (r: Seen)
  {
    if p == [] then Seen(false, false, false, false)
    else
      var rest := Scan(p[1..]);
      Seen(rest.upper || IsUpper(p[0]), rest.digit || IsDigit(p[0]),
           rest.special || IsSpecial(p[0]), rest.lineBreak || IsLineBreak(p[0]))
  }

  /** Each flag of the pass is set exactly when some character of its class occurs. */
  lemma ScanMeaning(p: string)
    ensures Scan(p).upper <==> exists i :: 0 <= i < |p| && IsUpper(p[i])
    ensures Scan(p).digit <==> exists i :: 0 <= i < |p| && IsDigit(p[i])
    ensures Scan(p).special <==> exists i :: 0 <= i < |p| && IsSpecial(p[i])
    ensures Scan(p).lineBreak <==> exists i :: 0 <= i < |p| && IsLineBreak(p[i])
  {
    ScanFlags(p);
    OccursMeaning(p, IsUpper);
    OccursMeaning(p, IsDigit);
    OccursMeaning(p, IsSpecial);
    OccursMeaning(p, IsLineBreak);
  }

  /** Whether some character of `p` is in the class `c`, by recursion. */
  function Occurs(p: string, c: char -> bool): bool {
    p != [] && (c(p[0]) || Occurs(p[1..], c))
  }

  lemma {:induction false} OccursMeaning(p: string, c: char -> bool)
    ensures Occurs(p, c) <==> exists i :: 0 <= i < |p| && c(p[i])
  {
    if p != [] {
      OccursMeaning(p[1..], c);
      if exists i :: 0 <= i < |p| && c(p[i]) {
        var i :| 0 <= i < |p| && c(p[i]);
        if i > 0 { assert c(p[1..][i - 1]); }
      }
    }
  }

  /** The pass sets its four flags independently. */
  lemma {:induction false} ScanFlags(p: string)
    ensures Scan(p) == Seen(Occurs(p, IsUpper), Occurs(p, IsDigit), Occurs(p, IsSpecial), Occurs(p, IsLineBreak))
  {
    if p != [] { ScanFlags(p[1..]); }
  }

  /** The regex test as one pass: long enough, no line break, and all three classes seen. */
  function MatchesStrong(p: string): (r: bool)
    ensures r <==> StrongPassword(p)
  {
    ScanMeaning(p);
    var seen := Scan(p);
    |p| >= 6 && !seen.lineBreak && seen.upper && seen.digit && seen.special
  }

  /** A password the pattern accepts also passes the login length rule. */
  lemma StrongPassesLogin(body: Body, isEmail: string -> bool)
    requires NotEmpty(Lookup(body, "email")) && isEmail(FieldText(Lookup(body, "email")))
    requires StrongPassword(FieldText(Lookup(body, "password")))
    ensures UserLoginFailures(body, isEmail) == []
  {
  }

  /** The login rule does not ask for strength: six lower-case letters pass it but not the pattern. */
  lemma LoginDoesNotCheckStrength()
    ensures !StrongPassword("abcdef")
    ensures |FieldText(Str("abcdef"))| >= 6
  {
    assert !IsUpper("abcdef"[0]) && !IsUpper("abcdef"[1]) && !IsUpper("abcdef"[2]);
    assert !IsUpper("abcdef"[3]) && !IsUpper("abcdef"[4]) && !IsUpper("abcdef"[5]);
  }

  /** A line break anywhere makes the pattern fail, whatever else the password holds. */
  lemma LineBreakRefused(pre: string, post: string)
    ensures !MatchesStrong(pre + "\n" + post)
  {
    var p := pre + "\n" + post;
    assert IsLineBreak(p[|pre|]);
  }

  /** The strong-password rules: required and matching the pattern. */
  function StrongPasswordFailures(body: Body): (r: seq<Failure>)
    ensures r == [] <==> StrongPassword(FieldText(Lookup(body, "password")))
  {
    var password := Lookup(body, "password");
    Rule(NotEmpty(password), "password", PasswordRequired)
    + Rule(MatchesStrong(FieldText(password)), "password",
           PasswordWeak)
  }

  /** A required name of at least three characters; `name` is the field's name in the messages. */
  function RequiredName(body: Body, field: string, name: string): (r: seq<Failure>)
    ensures r == [] <==> |FieldText(Lookup(body, field))| >= 3
  {
    Rule(NotEmpty(Lookup(body, field)), field, Required(name))
    + Rule(|FieldText(Lookup(body, field))| >= 3, field, TooShort(name))
  }

  /** `signupValidator`: an e-mail, a full name of three or more characters and a strong password. */
  function SignupFailures(body: Body, isEmail: string -> bool): (r: seq<Failure>)
    ensures r == [] <==> NotEmpty(Lookup(body, "email")) && isEmail(FieldText(Lookup(body, "email")))
                         && |FieldText(Lookup(body, "fullName"))| >= 3
                         && StrongPassword(FieldText(Lookup(body, "password")))
  {
    RequiredEmail(body, isEmail) + RequiredName(body, "fullName", "Full name") + StrongPasswordFailures(body)
  }

  /** `userSignupValidator`: as signup, with the name in `name`. */
  function UserSignupFailures(body: Body, isEmail: string -> bool): (r: seq<Failure>)
    ensures r == [] <==> NotEmpty(Lookup(body, "email")) && isEmail(FieldText(Lookup(body, "email")))
                         && |FieldText(Lookup(body, "name"))| >= 3
                         && StrongPassword(FieldText(Lookup(body, "password")))
  {
    RequiredEmail(body, isEmail) + RequiredName(body, "name", "name") + StrongPasswordFailures(body)
  }

  /** `loginValidator`: an e-mail and a password of six or more characters, strength unchecked. */
  function UserLoginFailures(body: Body, isEmail: string -> bool): (r: seq<Failure>)
    ensures r == [] <==> NotEmpty(Lookup(body, "email")) && isEmail(FieldText(Lookup(body, "email")))
                         && |FieldText(Lookup(body, "password"))| >= 6
  {
    RequiredEmail(body, isEmail) + RequiredPassword(body)
  }

  /** `updateUserValidator`: a sent full name non-empty with three or more characters, a sent password strong. */
  function UpdateUserFailures(body: Body): (r: seq<Failure>)
    ensures r == [] <==> (Skipped(Lookup(body, "fullName")) || |FieldText(Lookup(body, "fullName"))| >= 3)
                         && (Skipped(Lookup(body, "password")) || StrongPassword(FieldText(Lookup(body, "password"))))
  {
    var name := Lookup(body, "fullName");
    var password := Lookup(body, "password");
    (if Skipped(name) then []
     else Rule(NotEmpty(name), "fullName", FullNameEmpty)
          + Rule(|FieldText(name)| >= 3, "fullName", TooShort("Full name")))
    + (if Skipped(password) then []
       else Rule(MatchesStrong(FieldText(password)), "password",
                 PasswordWeak))
  }

  /** Every body that signup accepts also passes the update rules. */
  lemma SignupPassesUpdate(body: Body, isEmail: string -> bool)
    requires SignupFailures(body, isEmail) == []
    ensures UpdateUserFailures(body) == []
  {
  }

  // ---------------------------------------------------------------- customers

  /** The fields that, when sent, must be strings: those before ContactNumber, between it and Email, and after Email. */
  const LeadingTextFields: seq<string> := ["CustomerType", "customerName", "CustomerSubType"]
  const MiddleTextFields: seq<string> := ["City", "Location", "Area", "Adderess"]
  const TrailingTextFields: seq<string> :=
    ["Facillities", "ReferenceId", "CustomerId", "CustomerDate", "CustomerYear", "Other", "Description", "Video", "Verified", "GoogleMap"]

  /** `optional().isString()`. */
  predicate OptionalString(v: JsValue) {
    Skipped(v) || v.Str?
  }

  /** The `isString` rules of a list of optional fields, in order. */
  function TextRules(body: Body, fields: seq<string>): (r: seq<Failure>)
  {
    if fields == [] then []
    else
      (if OptionalString(Lookup(body, fields[0])) then [] else [Failure(fields[0], NotAString(fields[0]))])
      + TextRules(body, fields[1..])
  }

  /** The rules pass iff every listed field is absent or a string; each failure names a listed field. */
  lemma {:induction false} TextRulesMeaning(body: Body, fields: seq<string>)
    ensures TextRules(body, fields) == [] <==> forall i :: 0 <= i < |fields| ==> OptionalString(Lookup(body, fields[i]))
    ensures forall f :: f in TextRules(body, fields) ==> f.field in fields && f.message == NotAString(f.field)
  {
    if fields != [] {
      TextRulesMeaning(body, fields[1..]);
      assert forall i :: 1 <= i < |fields| ==> fields[i] == fields[1..][i - 1];
    }
  }

  /** `matches(/^[0-9]{10}$/)`. */
  predicate TenDigits(s: string) {
    |s| == 10 && forall i :: 0 <= i < |s| ==> IsDigit(s[i])
  }

  /** The optional e-mail of a customer. */
  function OptionalEmail(body: Body, isEmail: string -> bool): (r: seq<Failure>)
    ensures r == [] <==> Skipped(Lookup(body, "Email")) || isEmail(FieldText(Lookup(body, "Email")))
  {
    if Skipped(Lookup(body, "Email")) then []
    else Rule(isEmail(FieldText(Lookup(body, "Email"))), "Email", CustomerEmailInvalid)
  }

  /** The rules create and update share: every listed text field a string when sent, and the e-mail well-formed. */
  function SharedCustomerRules(body: Body, isEmail: string -> bool): (r: seq<Failure>)
    ensures r == [] <==> (forall f :: f in LeadingTextFields + MiddleTextFields + TrailingTextFields ==> OptionalString(Lookup(body, f)))
                         && (Skipped(Lookup(body, "Email")) || isEmail(FieldText(Lookup(body, "Email"))))
  {
    ThreeListsMeaning(body, LeadingTextFields, MiddleTextFields, TrailingTextFields, OptionalEmail(body, isEmail));
    TextRules(body, LeadingTextFields) + TextRules(body, MiddleTextFields) + OptionalEmail(body, isEmail) + TextRules(body, TrailingTextFields)
  }

  /** Three lists of text rules around another rule pass iff every listed field passes and so does the other rule. */
  lemma ThreeListsMeaning(body: Body, a: seq<string>, b: seq<string>, c: seq<string>, e: seq<Failure>)
    ensures TextRules(body, a) + TextRules(body, b) + e + TextRules(body, c) == []
        <==> (forall f :: f in a + b + c ==> OptionalString(Lookup(body, f))) && e == []
  {
    TextRulesOfMembers(body, a);
    TextRulesOfMembers(body, b);
    TextRulesOfMembers(body, c);
    assert forall f :: f in a + b + c <==> f in a || f in b || f in c;
  }

  lemma TextRulesOfMembers(body: Body, fields: seq<string>)
    ensures TextRules(body, fields) == [] <==> forall f :: f in fields ==> OptionalString(Lookup(body, f))
  {
    TextRulesMeaning(body, fields);
    assert forall f :: f in fields ==> exists i :: 0 <= i < |fields| && fields[i] == f;
  }

  /**
   * `createCustomerValidator`: a Campaign that is a non-empty string, a
   * ContactNumber of exactly ten digits, and the shared rules.
   */
  function CreateCustomerFailures(body: Body, isEmail: string -> bool): (r: seq<Failure>)
    ensures r == [] <==> Lookup(body, "Campaign").Str? && Lookup(body, "Campaign").s != ""
                         && TenDigits(FieldText(Lookup(body, "ContactNumber")))
                         && SharedCustomerRules(body, isEmail) == []
  {
    var campaign := Lookup(body, "Campaign");
    var number := Lookup(body, "ContactNumber");
    Rule(NotEmpty(campaign), "Campaign", CampaignRequired)
    + Rule(campaign.Str?, "Campaign", NotAString("Campaign"))
    + Rule(NotEmpty(number), "ContactNumber", ContactNumberRequired)
    + Rule(TenDigits(FieldText(number)), "ContactNumber", ContactNumberInvalid)
    + SharedCustomerRules(body, isEmail)
  }

  /** `updateCustomerValidator`: a Campaign that is a string when sent, any ContactNumber, and the shared rules. */
  function UpdateCustomerFailures(body: Body, isEmail: string -> bool): (r: seq<Failure>)
    ensures r == [] <==> OptionalString(Lookup(body, "Campaign")) && SharedCustomerRules(body, isEmail) == []
  {
    var campaign := Lookup(body, "Campaign");
    (if Skipped(campaign) then [] else Rule(campaign.Str?, "Campaign", NotAString("Campaign")))
    + SharedCustomerRules(body, isEmail)
  }

  /** Every body create accepts, update accepts too. */
  lemma CreateStricterThanUpdate(body: Body, isEmail: string -> bool)
    requires CreateCustomerFailures(body, isEmail) == []
    ensures UpdateCustomerFailures(body, isEmail) == []
  {
  }

  /** Update does not look at ContactNumber at all. */
  lemma UpdateIgnoresContactNumber(body: Body, number: JsValue, isEmail: string -> bool)
    ensures UpdateCustomerFailures(body["ContactNumber" := number], isEmail) == UpdateCustomerFailures(body, isEmail)
  {
    var other := body["ContactNumber" := number];
    ContactNumberUnlisted();
    assert Lookup(other, "Campaign") == Lookup(body, "Campaign");
    SharedRulesUnchanged(body, other, isEmail);
  }

  /** The shared rules read neither ContactNumber nor any field outside their lists. */
  lemma SharedRulesUnchanged(a: Body, b: Body, isEmail: string -> bool)
    requires forall f :: f in LeadingTextFields + MiddleTextFields + TrailingTextFields || f == "Email" ==> Lookup(a, f) == Lookup(b, f)
    ensures SharedCustomerRules(a, isEmail) == SharedCustomerRules(b, isEmail)
  {
    ThreeListsUnchanged(a, b, LeadingTextFields, MiddleTextFields, TrailingTextFields);
    assert Lookup(a, "Email") == Lookup(b, "Email");
  }

  /** Text rules over three lists only see the listed fields. */
  lemma ThreeListsUnchanged(a: Body, b: Body, x: seq<string>, y: seq<string>, z: seq<string>)
    requires forall f :: f in x + y + z ==> Lookup(a, f) == Lookup(b, f)
    ensures TextRules(a, x) == TextRules(b, x) && TextRules(a, y) == TextRules(b, y) && TextRules(a, z) == TextRules(b, z)
  {
    assert forall f :: f in x ==> f in x + y + z;
    assert forall f :: f in y ==> f in x + y + z;
    assert forall f :: f in z ==> f in x + y + z;
    TextRulesUnchanged(a, b, x);
    TextRulesUnchanged(a, b, y);
    TextRulesUnchanged(a, b, z);
  }

  /** ContactNumber is none of the fields the update rules read. */
  lemma ContactNumberUnlisted()
    ensures "ContactNumber" !in LeadingTextFields && "ContactNumber" !in MiddleTextFields
    ensures "ContactNumber" !in TrailingTextFields
    ensures "ContactNumber" != "Campaign" && "ContactNumber" != "Email"
    ensures "ContactNumber" !in LeadingTextFields + MiddleTextFields + TrailingTextFields
  {
  }

  /** Text rules only see the listed fields. */
  lemma {:induction false} TextRulesUnchanged(a: Body, b: Body, fields: seq<string>)
    requires forall f :: f in fields ==> Lookup(a, f) == Lookup(b, f)
    ensures TextRules(a, fields) == TextRules(b, fields)
  {
    if fields != [] {
      assert forall i :: 1 <= i < |fields| ==> fields[i] == fields[1..][i - 1];
      TextRulesUnchanged(a, b, fields[1..]);
    }
  }

  /** A ten-digit contact number sent as a number passes like its text. */
  lemma NumericContactNumber(n: nat)
    requires 1000000000 <= n < 10000000000
    ensures TenDigits(FieldText(Num(n)))
  {
    assert Pow10(10) == 10000000000 && Pow10(9) == 1000000000 by {
      assert Pow10(3) == 1000;
      assert Pow10(6) == 1000000;
    }
    NatToStringLength(n, 10);
  }

  function Pow10(k: nat): nat { if k == 0 then 1 else 10 * Pow10(k - 1) }

  /** A number of `k` digits renders as `k` characters. */
  lemma {:induction false} NatToStringLength(m: nat, k: nat)
    requires k >= 1
    requires (k == 1 || Pow10(k - 1) <= m) && m < Pow10(k)
    ensures |NatToString(m)| == k
  {
    if k > 1 {
      NatToStringLength(m / 10, k - 1);
    }
  }
}
