/**
 The `patientSchema` of lib/validation.ts, in two forms: `FieldAccepted` states
 each field's acceptance rule, and `Issues` lists the issues a parse reports,
 check by check in the order the schema chains them. `ParseSucceedsIff` ties
 the two together. The `.email()` format test is a library rule and enters as
 the parameter `isEmail`.
 */
module Validation {
  import opened Options
  import opened FormTypes
  import opened JsStrings

  /** The class `[0-9+()-\s]`; without the `u` flag `)-\s` reads as `)`, `-` and `\s`. */
  predicate IsPhoneChar(c: char)
  {
    ('0' <= c <= '9') || c == '+' || c == '(' || c == ')' || c == '-' || IsWhitespace(c)
  }

  /** The class `[a-zA-Z\s]`. */
  predicate IsLetterOrSpace(c: char)
  {
    ('a' <= c <= 'z') || ('A' <= c <= 'Z') || IsWhitespace(c)
  }

  predicate LengthWithin(s: string, lo: nat, hi: nat)
  {
    lo <= Utf16Length(s) <= hi
  }

  /** 8 to 15 code units, every character from the phone class. */
  predicate PhoneShaped(s: string)
  {
    LengthWithin(s, 8, 15) && forall i :: 0 <= i < |s| ==> IsPhoneChar(s[i])
  }

  /** Each field's acceptance rule. An absent optional property is always accepted. */
  predicate FieldAccepted(form: PatientFormData, f: Field, isEmail: string -> bool)
  {
    match f
    case FirstName => LengthWithin(form.firstName, 1, 50)
    case MiddleName => form.middleName.None? || Utf16Length(form.middleName.value) <= 50
    case LastName => LengthWithin(form.lastName, 1, 50)
    case DateOfBirth => form.dateOfBirth != ""
    case Gender => form.gender != "" && form.gender != "Select"
    case PhoneNumber => PhoneShaped(form.phoneNumber)
    case Email => form.email != "" && isEmail(form.email)
    case Address => form.address != ""
    case PreferredLanguage =>
      LengthWithin(form.preferredLanguage, 1, 50) && form.preferredLanguage != "Select"
    case Nationality =>
      LengthWithin(form.nationality, 1, 50)
      && forall i :: 0 <= i < |form.nationality| ==> IsLetterOrSpace(form.nationality[i])
    case EmergencyContactName =>
      form.emergencyContactName.None? || Utf16Length(form.emergencyContactName.value) <= 100
    case EmergencyRelationship => true
    case Religion => true
    case EmergencyPhoneNumber =>
      form.emergencyPhoneNumber.None? || form.emergencyPhoneNumber.value == ""
      || PhoneShaped(form.emergencyPhoneNumber.value)
  }

  /**
   The record passes the schema. The `status` rule, `z.enum([...]).optional()`,
   holds of every record here because `Status` has exactly the three values.
   */
  ghost predicate Conforms(form: PatientFormData, isEmail: string -> bool)
  {
    forall f :: FieldAccepted(form, f, isEmail)
  }

  /** One reported problem: the field it is about (its path) and its message. */
  datatype Issue = Issue(field: Field, message: string)

  /** zod's own wording for a `.max(n)` check that carries no message of its own. */
  const TooLong50 := "String must contain at most 50 character(s)"
  const TooLong100 := "String must contain at most 100 character(s)"

  /** The check's message when it fails, nothing when it passes. */
  function Check(passes: bool, message: string): (r: seq<string>)
    ensures r == [] <==> passes
  {
    if passes then [] else [message]
  }

  /**
   The messages one field's schema reports, in order. Every check of a chain
   runs even after an earlier one failed, and a `.refine` runs after the
   checks it wraps.
   */
  function FieldMessages(form: PatientFormData, f: Field, isEmail: string -> bool): seq<string>
  {
    match f
    case FirstName =>
      var n := Utf16Length(form.firstName);
      Check(n >= 1, "First name is required") + Check(n <= 50, TooLong50)
    case MiddleName =>
      if form.middleName.None? then [] else Check(Utf16Length(form.middleName.value) <= 50, TooLong50)
    case LastName =>
      var n := Utf16Length(form.lastName);
      Check(n >= 1, "Last name is required") + Check(n <= 50, TooLong50)
    case DateOfBirth =>
      Check(Utf16Length(form.dateOfBirth) >= 1, "Date of Birth is required")
    case Gender =>
      Check(Utf16Length(form.gender) >= 1, "Gender is required")
      + Check(form.gender != "Select", "Please select gender")
    case PhoneNumber =>
      var n := Utf16Length(form.phoneNumber);
      Check(n >= 8, "Phone number must be at least 8 digits")
      + Check(n <= 15, "Phone number too long")
      + Check(MatchesPlus(form.phoneNumber, IsPhoneChar), "Invalid phone number format")
    case Email =>
      Check(Utf16Length(form.email) >= 1, "Email is required")
      + Check(isEmail(form.email), "Invalid email format")
    case Address =>
      Check(Utf16Length(form.address) >= 1, "Address is required")
    case PreferredLanguage =>
      var n := Utf16Length(form.preferredLanguage);
      Check(n >= 1, "Preferred language is required")
      + Check(n <= 50, TooLong50)
      + Check(form.preferredLanguage != "Select", "Please select preferred language")
    case Nationality =>
      var n := Utf16Length(form.nationality);
      Check(n >= 1, "Nationality is required")
      + Check(n <= 50, TooLong50)
      + Check(MatchesPlus(form.nationality, IsLetterOrSpace), "Nationality must contain only letters")
    case EmergencyContactName =>
      if form.emergencyContactName.None? then []
      else Check(Utf16Length(form.emergencyContactName.value) <= 100, TooLong100)
    case EmergencyRelationship => []
    case Religion => []
    case EmergencyPhoneNumber =>
      // `!val` holds of both `undefined` and `""`
      var blank := form.emergencyPhoneNumber.None? || form.emergencyPhoneNumber.value == "";
      var v := form.emergencyPhoneNumber.GetOr("");
      Check(blank || (8 <= Utf16Length(v) <= 15), "Emergency phone must be 8-15 digits")
      + Check(blank || MatchesPlus(v, IsPhoneChar), "Invalid emergency phone format")
  }

  /** Attaching the field's key as the path of each of its messages. */
  function Tag(f: Field, messages: seq<string>): (r: seq<Issue>)
    ensures |r| == |messages|
    ensures forall i :: 0 <= i < |r| ==> r[i].field == f && r[i].message == messages[i]
  {
    seq(|messages|, i requires 0 <= i < |messages| => Issue(f, messages[i]))
  }

  /**
   The issues one field's schema reports: its messages in order, each with
   that field, and no other, as its path.
   */
  function FieldIssues(form: PatientFormData, f: Field, isEmail: string -> bool): (r: seq<Issue>)
    ensures forall i :: 0 <= i < |r| ==> r[i].field == f
    ensures r == [] <==> FieldMessages(form, f, isEmail) == []
  {
    Tag(f, FieldMessages(form, f, isEmail))
  }

  /** The order of the schema's keys, which is the order `parse` visits them in. */
  const SchemaOrder: seq<Field> := [
    FirstName, MiddleName, LastName, DateOfBirth, Gender, PhoneNumber, Email, Address,
    PreferredLanguage, Nationality, EmergencyContactName, EmergencyRelationship,
    EmergencyPhoneNumber, Religion]

  /** Every field has a place in the schema's key order. */
  lemma SchemaOrderCoversFields(f: Field)
    ensures f in SchemaOrder
  {
  }

  function IssuesOf(form: PatientFormData, fields: seq<Field>, isEmail: string -> bool): seq<Issue>
  {
    if |fields| == 0 then []
    else FieldIssues(form, fields[0], isEmail) + IssuesOf(form, fields[1..], isEmail)
  }

  /** Everything `patientSchema.parse(form)` reports, in order; an empty list means success. */
  function Issues(form: PatientFormData, isEmail: string -> bool): seq<Issue>
  {
    IssuesOf(form, SchemaOrder, isEmail)
  }

  /** The fields whose chain ends in a regular expression. */
  predicate HasPattern(f: Field)
  {
    f == PhoneNumber || f == Nationality || f == EmergencyPhoneNumber
  }

  lemma PatternFieldMessagesEmptyIff(form: PatientFormData, f: Field, isEmail: string -> bool)
    requires HasPattern(f)
    ensures FieldMessages(form, f, isEmail) == [] <==> FieldAccepted(form, f, isEmail)
  {
    match f
    case PhoneNumber =>
      MatchesPlusMeans(form.phoneNumber, IsPhoneChar);
    case Nationality =>
      MatchesPlusMeans(form.nationality, IsLetterOrSpace);
    case EmergencyPhoneNumber =>
      MatchesPlusMeans(form.emergencyPhoneNumber.GetOr(""), IsPhoneChar);
  }

  lemma PlainFieldMessagesEmptyIff(form: PatientFormData, f: Field, isEmail: string -> bool)
    requires !HasPattern(f)
    ensures FieldMessages(form, f, isEmail) == [] <==> FieldAccepted(form, f, isEmail)
  {
  }

  /** A field reports no issue exactly when its acceptance rule holds. */
  lemma FieldIssuesEmptyIff(form: PatientFormData, f: Field, isEmail: string -> bool)
    ensures FieldIssues(form, f, isEmail) == [] <==> FieldAccepted(form, f, isEmail)
  {
    if HasPattern(f) {
      PatternFieldMessagesEmptyIff(form, f, isEmail);
    } else {
      PlainFieldMessagesEmptyIff(form, f, isEmail);
    }
  }

  /** Some issue of the list is about `g`. */
  predicate Mentions(issues: seq<Issue>, g: Field)
  {
    exists i :: 0 <= i < |issues| && issues[i].field == g
  }

  lemma MentionsAppend(a: seq<Issue>, b: seq<Issue>, g: Field)
    ensures Mentions(a + b, g) <==> Mentions(a, g) || Mentions(b, g)
  {
    if Mentions(a + b, g) {
      var i :| 0 <= i < |a + b| && (a + b)[i].field == g;
      if i >= |a| {
        assert b[i - |a|] == (a + b)[i];
      } else {
        assert a[i] == (a + b)[i];
      }
    }
    if Mentions(a, g) {
      var i :| 0 <= i < |a| && a[i].field == g;
      assert (a + b)[i] == a[i];
    }
    if Mentions(b, g) {
      var i :| 0 <= i < |b| && b[i].field == g;
      assert (a + b)[|a| + i] == b[i];
    }
  }

  /** A list of issues all about `f` mentions `g` exactly when it is non-empty and `g` is `f`. */
  lemma MentionsOwn(own: seq<Issue>, f: Field, g: Field)
    requires forall i :: 0 <= i < |own| ==> own[i].field == f
    ensures Mentions(own, g) <==> f == g && own != []
  {
    if own != [] {
      assert own[0].field == f;
    }
  }

  /** A field's schema reports issues about that field only. */
  lemma FieldIssuesMention(form: PatientFormData, f: Field, isEmail: string -> bool, g: Field)
    ensures Mentions(FieldIssues(form, f, isEmail), g) <==> f == g && FieldIssues(form, f, isEmail) != []
  {
    MentionsOwn(FieldIssues(form, f, isEmail), f, g);
  }

  /** An issue of the concatenation is about one of the visited fields whose rule failed. */
  lemma {:induction false} IssuesOfFields(form: PatientFormData, fields: seq<Field>, isEmail: string -> bool, g: Field)
    ensures Mentions(IssuesOf(form, fields, isEmail), g) <==> (g in fields && FieldIssues(form, g, isEmail) != [])
  {
    if |fields| > 0 {
      IssuesOfFields(form, fields[1..], isEmail, g);
      FieldIssuesMention(form, fields[0], isEmail, g);
      MentionsAppend(FieldIssues(form, fields[0], isEmail), IssuesOf(form, fields[1..], isEmail), g);
      assert g in fields <==> g == fields[0] || g in fields[1..];
    }
  }

  /** An issue about `g` is reported exactly when `g`'s acceptance rule fails. */
  lemma IssueReportedIff(form: PatientFormData, isEmail: string -> bool, g: Field)
    ensures Mentions(Issues(form, isEmail), g) <==> !FieldAccepted(form, g, isEmail)
  {
    IssuesOfFields(form, SchemaOrder, isEmail, g);
    SchemaOrderCoversFields(g);
    FieldIssuesEmptyIff(form, g, isEmail);
  }

  /** `parse` succeeds exactly on the records every acceptance rule admits. */
  lemma ParseSucceedsIff(form: PatientFormData, isEmail: string -> bool)
    ensures Issues(form, isEmail) == [] <==> Conforms(form, isEmail)
  {
    var all := Issues(form, isEmail);
    if all != [] {
      assert Mentions(all, all[0].field);
      IssueReportedIff(form, isEmail, all[0].field);
    }
    if !Conforms(form, isEmail) {
      var g :| !FieldAccepted(form, g, isEmail);
      IssueReportedIff(form, isEmail, g);
    }
  }
}
