/** The employee form validator (src/utils/validators.js): a map from each
    offending property name to its error message. */
module Validators {

  import opened Values
  import opened Strings

  /** The three messages, as the translation service resolves them at call time. */
  datatype Messages = Messages(required: string, invalidEmail: string, invalidPhone: string)

  /** `[^\s@]`. */
  predicate EmailChar(c: char) {
    !IsJsWhitespace(c) && c != '@'
  }

  /** `[^\s@]+`. */
  predicate EmailPart(s: string) {
    |s| > 0 && forall k :: 0 <= k < |s| ==> EmailChar(s[k])
  }

  /** `/^[^\s@]+@[^\s@]+\.[^\s@]+$/.test(s)`, read literally: three non-empty
      runs of allowed characters, joined by an `@` and then a `.`. */
  ghost predicate MatchesEmailRegex(s: string) {
    exists i, j :: 0 < i < j < |s| - 1 && s[i] == '@' && s[j] == '.'
      && EmailPart(s[..i]) && EmailPart(s[i + 1..j]) && EmailPart(s[j + 1..])
  }

  /** What the email pattern accepts, stated as three checks: no white space,
      exactly one `@` with something before it, and a `.` after the `@` with
      something on both sides of it. */
  predicate IsEmail(s: string) {
    && NoWhitespace(s)
    && exists at | 0 < at < |s| ::
      && s[at] == '@'
      && (forall k :: 0 <= k < |s| && k != at ==> s[k] != '@')
      && (exists dot | at + 1 < dot < |s| - 1 :: s[dot] == '.')
  }

  /** The three checks accept exactly the strings the regular expression matches. */
  lemma EmailRegexShape(s: string)
    ensures IsEmail(s) <==> MatchesEmailRegex(s)
  {
    if IsEmail(s) {
      var at :| 0 < at < |s| && s[at] == '@'
        && (forall k :: 0 <= k < |s| && k != at ==> s[k] != '@')
        && (exists dot | at + 1 < dot < |s| - 1 :: s[dot] == '.');
      var dot :| at + 1 < dot < |s| - 1 && s[dot] == '.';
      EmailPartsOf(s, at, dot);
    }
    if MatchesEmailRegex(s) {
      var i, j :| 0 < i < j < |s| - 1 && s[i] == '@' && s[j] == '.'
        && EmailPart(s[..i]) && EmailPart(s[i + 1..j]) && EmailPart(s[j + 1..]);
      EmailChecksOf(s, i, j);
    }
  }

  /** The three runs around a lone `@` and a later `.` of a string without
      white space are each non-empty runs of allowed characters. */
  lemma EmailPartsOf(s: string, at: int, dot: int)
    requires NoWhitespace(s) && 0 < at && at + 1 < dot < |s| - 1 && s[at] == '@' && s[dot] == '.'
    requires forall k :: 0 <= k < |s| && k != at ==> s[k] != '@'
    ensures EmailPart(s[..at]) && EmailPart(s[at + 1..dot]) && EmailPart(s[dot + 1..])
  {
    var local, domain, tld := s[..at], s[at + 1..dot], s[dot + 1..];
    assert EmailPart(local) by {
      forall k | 0 <= k < |local| ensures EmailChar(local[k]) {
        assert local[k] == s[k];
      }
    }
    assert EmailPart(domain) by {
      forall k | 0 <= k < |domain| ensures EmailChar(domain[k]) {
        assert domain[k] == s[at + 1 + k];
      }
    }
    assert EmailPart(tld) by {
      forall k | 0 <= k < |tld| ensures EmailChar(tld[k]) {
        assert tld[k] == s[dot + 1 + k];
      }
    }
  }

  /** A string made of three runs of allowed characters joined by `@` and
      `.` has no white space, one `@`, and a `.` after it. */
  lemma EmailChecksOf(s: string, i: int, j: int)
    requires 0 < i < j < |s| - 1 && s[i] == '@' && s[j] == '.'
    requires EmailPart(s[..i]) && EmailPart(s[i + 1..j]) && EmailPart(s[j + 1..])
    ensures IsEmail(s)
  {
    var local, domain, tld := s[..i], s[i + 1..j], s[j + 1..];
    forall k | 0 <= k < |s|
      ensures !IsJsWhitespace(s[k]) && (k != i ==> s[k] != '@')
    {
      if k < i {
        assert s[k] == local[k];
      } else if i < k < j {
        assert s[k] == domain[k - i - 1];
      } else if j < k {
        assert s[k] == tld[k - j - 1];
      }
    }
    assert i + 1 < j;
  }

  /** `/^(5\d{2})\d{7}$/.test(s)`: ten ASCII digits, the first of them a 5. */
  predicate IsPhone(s: string) {
    |s| == 10 && s[0] == '5' && forall k :: 0 <= k < |s| ==> '0' <= s[k] <= '9'
  }

  /** A property the validator leaves without an error. */
  predicate Accepted(key: string, v: Field) {
    && Truthy(v)
    && (key == "email" ==> IsEmail(v.s))
    && (key == "phoneNumber" ==> IsPhone(v.s))
  }

  /** The message an offending property ends up with: the format errors
      overwrite the required error, which only falsy values get. */
  function MessageFor(key: string, v: Field, messages: Messages): string {
    if !Truthy(v) then messages.required
    else if key == "email" then messages.invalidEmail
    else messages.invalidPhone
  }

  /** The error map `validateEmployeeForm` returns. */
  function ExpectedErrors(employee: Record, messages: Messages): map<string, string> {
    map k | k in employee && !Accepted(k, employee[k]) :: MessageFor(k, employee[k], messages)
  }

  /** Only the record's own properties get errors; a falsy one gets the
      required message; a truthy one is flagged only for a malformed email or
      phone number, with the matching message; and the map is empty exactly
      when every property is accepted. */
  lemma ExpectedErrorsShape(employee: Record, messages: Messages)
    ensures var errors := ExpectedErrors(employee, messages);
      && errors.Keys <= employee.Keys
      && (forall k :: k in employee && !Truthy(employee[k]) ==> k in errors && errors[k] == messages.required)
      && (forall k :: k in employee && Truthy(employee[k]) && k != "email" && k != "phoneNumber" ==> k !in errors)
      && ("email" in employee && Truthy(employee["email"]) ==>
            ("email" in errors <==> !IsEmail(employee["email"].s))
            && ("email" in errors ==> errors["email"] == messages.invalidEmail))
      && ("phoneNumber" in employee && Truthy(employee["phoneNumber"]) ==>
            ("phoneNumber" in errors <==> !IsPhone(employee["phoneNumber"].s))
            && ("phoneNumber" in errors ==> errors["phoneNumber"] == messages.invalidPhone))
      && (errors == map[] <==> forall k :: k in employee ==> Accepted(k, employee[k]))
  {
    var errors := ExpectedErrors(employee, messages);
    if errors == map[] {
      forall k | k in employee ensures Accepted(k, employee[k]) {
        assert k !in errors;
      }
    }
  }

  /** `validateEmployeeForm`: one pass over the properties for the required
      rule, then the email and phone number format rules. */
  method ValidateEmployeeForm(employee: Record, messages: Messages) returns (errors: map<string, string>)
    ensures errors == ExpectedErrors(employee, messages)
  {
    errors := map[];
    var remaining := employee.Keys;
    while remaining != {}
      invariant remaining <= employee.Keys
      invariant errors == map k | k in employee && k !in remaining && !Truthy(employee[k]) :: messages.required
      decreases remaining
    {
      var key :| key in remaining;
      if !Truthy(employee[key]) {
        errors := errors[key := messages.required];
      }
      remaining := remaining - {key};
    }
    var email := Get(employee, "email");
    if Truthy(email) && !IsEmail(email.s) {
      errors := errors["email" := messages.invalidEmail];
    }
    var phoneNumber := Get(employee, "phoneNumber");
    if Truthy(phoneNumber) && !IsPhone(phoneNumber.s) {
      errors := errors["phoneNumber" := messages.invalidPhone];
    }
  }

  /** An object without properties passes; one whose every property is
      falsy gets the required message on each of them and nothing else. */
  lemma AllFalsyRequired(employee: Record, messages: Messages)
    requires forall k :: k in employee ==> !Truthy(employee[k])
    ensures ExpectedErrors(map[], messages) == map[]
    ensures ExpectedErrors(employee, messages) == map k | k in employee :: messages.required
  {
    var errors := ExpectedErrors(employee, messages);
    var expected := map k | k in employee :: messages.required;
    assert errors.Keys == expected.Keys;
  }

  /** A non-empty malformed email gets the email error and not the required one. */
  lemma BadEmail(messages: Messages)
    ensures var errors := ExpectedErrors(map["email" := Str("bad")], messages);
      errors == map["email" := messages.invalidEmail]
  {
    assert !IsEmail("bad");
  }
}
