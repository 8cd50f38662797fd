/**
 The state updates of the patient form component: the blank initial form, the
 three change handlers, `validateForm` and `submit`. Rendering is not modelled.
 Each handler is a function from the component's state to its next state and
 the message it sends, if any, to the relay server. The date formatter and the
 email-format test are parameters.
 */
module PatientForm {
  import opened Options
  import opened FormTypes
  import opened Validation

  /** A calendar day as the date picker reports it; `format` renders it as `yyyy-MM-dd`. */
  datatype CalendarDate = CalendarDate(year: int, month: int, day: int)

  /** The component's state: the form, the picked date and the error text per property key. */
  datatype ClientState = ClientState(
    form: PatientFormData,
    date: Option<CalendarDate>,
    errors: map<string, string>)

  /** The two messages the form sends to the relay server. */
  datatype Outgoing = SendTyping(data: PatientFormData) | SendSubmit(data: PatientFormData)

  /** A handler's effect: the next state and the message sent, if any. */
  datatype Reaction = Reaction(next: ClientState, sent: Option<Outgoing>)

  /** The form the component starts from: every property `""`, no status. */
  const InitialForm: PatientFormData := EmptyRecord(None)

  const InitialState: ClientState := ClientState(InitialForm, None, map[])

  /** The initial form holds all fourteen properties, each `""`, and no status tag. */
  lemma InitialFormIsBlank()
    ensures forall f :: Get(InitialForm, f) == Some("")
    ensures InitialForm.status.None?
    ensures InitialState.errors == map[] && InitialState.date.None?
  {
  }

  /** `after` is `before` with at most the entry `key` changed, and that one to `""`. */
  ghost predicate ClearedOnly(before: map<string, string>, after: map<string, string>, key: string)
  {
    && (forall k :: k != key ==> (k in after <==> k in before))
    && (forall k :: k in after && k != key ==> after[k] == before[k])
    && (key in after <==> key in before)
    && (key in after ==> after[key] == "")
  }

  /** `if (errors[name]) setErrors({ ...prev, [name]: "" })`: only a non-empty message is cleared. */
  function ClearError(errors: map<string, string>, key: string): (r: map<string, string>)
    ensures ClearedOnly(errors, r, key)
    ensures key !in errors || errors[key] == "" ==> r == errors
  {
    if key in errors && errors[key] != "" then errors[key := ""] else errors
  }

  /** `after` is `before` with property `f` set to `value`, the status `typing` and nothing else changed. */
  ghost predicate EditedOnly(before: PatientFormData, after: PatientFormData, f: Field, value: string)
  {
    && Get(after, f) == Some(value)
    && (forall g :: g != f ==> Get(after, g) == Get(before, g))
    && after.status == Some(Typing)
  }

  /** The body shared by the text-input and the select handlers. */
  function Edit(st: ClientState, f: Field, value: string): (r: Reaction)
    ensures EditedOnly(st.form, r.next.form, f, value)
    ensures ClearedOnly(st.errors, r.next.errors, FieldName(f))
    ensures r.next.date == st.date
    ensures r.sent == Some(SendTyping(r.next.form))
  {
    var updated := WithStatus(WithField(st.form, f, value), Typing);
    Reaction(ClientState(updated, st.date, ClearError(st.errors, FieldName(f))), Some(SendTyping(updated)))
  }

  /** A text input named after field `f` changed to `value`. */
  function HandleChange(st: ClientState, f: Field, value: string): (r: Reaction)
    ensures EditedOnly(st.form, r.next.form, f, value)
    ensures ClearedOnly(st.errors, r.next.errors, FieldName(f))
    ensures r.next.date == st.date
    ensures r.sent == Some(SendTyping(r.next.form))
  {
    Edit(st, f, value)
  }

  /** A select bound to field `f` picked `value`. */
  function HandleSelectChange(st: ClientState, f: Field, value: string): (r: Reaction)
    ensures EditedOnly(st.form, r.next.form, f, value)
    ensures ClearedOnly(st.errors, r.next.errors, FieldName(f))
    ensures r.next.date == st.date
    ensures r.sent == Some(SendTyping(r.next.form))
  {
    Edit(st, f, value)
  }

  /** The date picker reported `selected`, or nothing when the day was unpicked. */
  function HandleDateChange(st: ClientState, selected: Option<CalendarDate>, format: CalendarDate -> string): (r: Reaction)
    ensures r.next.date == selected
    ensures selected.None? ==> r.next.form == st.form && r.next.errors == st.errors && r.sent.None?
    ensures selected.Some? ==>
      && EditedOnly(st.form, r.next.form, DateOfBirth, format(selected.value))
      && ClearedOnly(st.errors, r.next.errors, "dateOfBirth")
      && r.sent == Some(SendTyping(r.next.form))
  {
    match selected
    case None => Reaction(st.(date := selected), None)
    case Some(d) =>
      var updated := WithStatus(WithField(st.form, DateOfBirth, format(d)), Typing);
      Reaction(ClientState(updated, selected, ClearError(st.errors, "dateOfBirth")), Some(SendTyping(updated)))
  }

  /** The error map built by `forEach` over the issues: each issue writes its message under its key. */
  function ErrorsFrom(issues: seq<Issue>): map<string, string>
    decreases |issues|
  {
    if |issues| == 0 then map[]
    else
      var last := issues[|issues| - 1];
      ErrorsFrom(issues[..|issues| - 1])[FieldName(last.field) := last.message]
  }

  /** Every key of the error map comes from an issue about that key's field. */
  lemma {:induction false} ErrorKeysComeFromIssues(issues: seq<Issue>)
    ensures forall k :: k in ErrorsFrom(issues) ==> exists i :: 0 <= i < |issues| && FieldName(issues[i].field) == k
    decreases |issues|
  {
    if |issues| > 0 {
      var n := |issues| - 1;
      var prefix := issues[..n];
      var key := FieldName(issues[n].field);
      ErrorKeysComeFromIssues(prefix);
      assert ErrorsFrom(issues) == ErrorsFrom(prefix)[key := issues[n].message];
      forall k | k in ErrorsFrom(issues)
        ensures exists i :: 0 <= i < |issues| && FieldName(issues[i].field) == k
      {
        if k != key {
          assert k in ErrorsFrom(prefix);
          var i :| 0 <= i < |prefix| && FieldName(prefix[i].field) == k;
          assert issues[i] == prefix[i];
        }
      }
    }
  }

  /** Every issue leaves an entry under its field's key. */
  lemma {:induction false} IssuesLeaveErrorKeys(issues: seq<Issue>)
    ensures forall i :: 0 <= i < |issues| ==> FieldName(issues[i].field) in ErrorsFrom(issues)
    decreases |issues|
  {
    if |issues| > 0 {
      var n := |issues| - 1;
      var prefix := issues[..n];
      IssuesLeaveErrorKeys(prefix);
      assert ErrorsFrom(issues).Keys == ErrorsFrom(prefix).Keys + {FieldName(issues[n].field)};
      forall i | 0 <= i < n
        ensures FieldName(issues[i].field) in ErrorsFrom(issues)
      {
        assert prefix[i] == issues[i];
      }
    }
  }

  /** No later issue is about the same field as issue `i`. */
  ghost predicate LastAbout(issues: seq<Issue>, i: int)
    requires 0 <= i < |issues|
  {
    forall j :: i < j < |issues| ==> issues[j].field != issues[i].field
  }

  /** A field's entry holds the message of the LAST issue about that field: later issues overwrite earlier ones. */
  lemma {:induction false} ErrorsKeepLastMessage(issues: seq<Issue>, i: int)
    requires 0 <= i < |issues| && LastAbout(issues, i)
    ensures FieldName(issues[i].field) in ErrorsFrom(issues)
    ensures ErrorsFrom(issues)[FieldName(issues[i].field)] == issues[i].message
    decreases |issues|
  {
    var n := |issues| - 1;
    if i < n {
      var prefix := issues[..n];
      var last := issues[n];
      FieldNameInjective(last.field, issues[i].field);
      assert prefix[i] == issues[i];
      assert LastAbout(prefix, i) by {
        forall j | i < j < |prefix| ensures prefix[j].field != prefix[i].field {
          assert prefix[j] == issues[j];
        }
      }
      ErrorsKeepLastMessage(prefix, i);
    }
  }

  /** `validateForm`'s outcome: whether the parse succeeded, and the state with its new error map. */
  datatype Validated = Validated(ok: bool, next: ClientState)

  /**
   `validateForm`: on success the error map is emptied; otherwise it is rebuilt
   from the parse's issues and holds an entry for exactly the rejected fields.
   */
  function ValidateForm(st: ClientState, isEmail: string -> bool): (r: Validated)
    ensures r.ok <==> Conforms(st.form, isEmail)
    ensures r.next.form == st.form && r.next.date == st.date
    ensures r.ok ==> r.next.errors == map[]
    ensures !r.ok ==> r.next.errors == ErrorsFrom(Issues(st.form, isEmail))
    ensures forall f :: FieldName(f) in r.next.errors <==> !FieldAccepted(st.form, f, isEmail)
  {
    var issues := Issues(st.form, isEmail);
    ParseSucceedsIff(st.form, isEmail);
    ErrorKeysComeFromIssues(issues);
    IssuesLeaveErrorKeys(issues);
    assert forall f :: FieldName(f) in ErrorsFrom(issues) <==> Mentions(issues, f) by {
      forall f ensures FieldName(f) in ErrorsFrom(issues) <==> Mentions(issues, f) {
        if FieldName(f) in ErrorsFrom(issues) {
          var i :| 0 <= i < |issues| && FieldName(issues[i].field) == FieldName(f);
          FieldNameInjective(issues[i].field, f);
        }
      }
    }
    assert forall f :: Mentions(issues, f) <==> !FieldAccepted(st.form, f, isEmail) by {
      forall f ensures Mentions(issues, f) <==> !FieldAccepted(st.form, f, isEmail) {
        IssueReportedIff(st.form, isEmail, f);
      }
    }
    if issues == [] then Validated(true, st.(errors := map[]))
    else Validated(false, st.(errors := ErrorsFrom(issues)))
  }

  /** Every entry of the rebuilt error map is under a field's key. */
  lemma ErrorKeysAreFields(st: ClientState, isEmail: string -> bool, k: string)
    requires k in ValidateForm(st, isEmail).next.errors
    ensures exists f :: FieldName(f) == k && !FieldAccepted(st.form, f, isEmail)
  {
    var issues := Issues(st.form, isEmail);
    ErrorKeysComeFromIssues(issues);
    var i :| 0 <= i < |issues| && FieldName(issues[i].field) == k;
    assert FieldName(issues[i].field) in ValidateForm(st, isEmail).next.errors;
  }

  /**
   `submit`: when validation fails nothing is sent; otherwise exactly one
   `patient-submit` carrying the form with status `submitted`. The form itself
   is left as it was.
   */
  function Submit(st: ClientState, isEmail: string -> bool): (r: Reaction)
    ensures r.next.form == st.form && r.next.date == st.date
    ensures r.sent.Some? <==> Conforms(st.form, isEmail)
    ensures r.sent.Some? ==>
      && r.sent.value.SendSubmit?
      && SameFields(r.sent.value.data, st.form)
      && r.sent.value.data.status == Some(Submitted)
    ensures r.next.errors == ValidateForm(st, isEmail).next.errors
  {
    var v := ValidateForm(st, isEmail);
    if !v.ok then Reaction(v.next, None)
    else Reaction(v.next, Some(SendSubmit(WithStatus(st.form, Submitted))))
  }
}
