# Real-time patient form: verified model of the relay and the form logic

A patient fills in an intake form in the browser. Every edit is sent to a small
relay server as `patient-typing` with the whole form. A final `patient-submit`
is sent only when the form passes its schema. The server keeps one
authoritative record. It stamps the record with a status (`typing`,
`submitted` or `inactive`) and broadcasts it as `form-update` to every
connected socket, so staff screens follow the form live. Thirty seconds after
the last edit with no submit, an inactivity timer demotes the record to
`inactive`.

The model has one Dafny module per part of the program:

- `FormTypes` (form_types.dfy): the `PatientFormData` record, the `Status`
  enum and its wire names, the field keys, and reading, writing and
  re-stamping a record.
- `JsStrings` (js_strings.dfy): the two JavaScript string facts the schema
  depends on. `length` counts UTF-16 code units, and `\s` is the ECMAScript
  whitespace set. It also has a model of matching `^[class]+$`.
- `Validation` (validation.dfy): `patientSchema`, in two forms.
  `FieldAccepted` states each field's rule. `Issues` lists what a parse
  reports, check by check. `ParseSucceedsIff` proves the two agree.
- `PatientForm` (patient_form.dfy): the form component's initial state, its
  three change handlers, `validateForm` (the error map) and `submit`.
- `Relay` (relay.dfy): the server as a pure transition function
  `Step(state, now, event)`. It returns the next state and the emissions. The
  timer is an integer deadline on an abstract millisecond clock. The event
  `Tick` runs the callback once the deadline is due. Connected sockets are a
  set of ids. A broadcast resolves to one delivery per id.
- `RelayTraces` (relay_traces.dfy): runs over timestamped event traces. It
  proves the timer invariant, last-write-wins, that `submitted` is sticky,
  and that the countdown restarts on every edit.
- `Session` (session.dfy): the client and the server together.
- `Options` (options.dfy): `Option<T>` for absent properties.

Three facts about the code that the model keeps:

- The server's initial record carries `status: "inactive"` explicitly. The
  client's initial form carries no status at all (`InitialForm.status == None`).
- Both initial records give the five optional properties an explicit `""`,
  not `undefined`.
- The server does not validate payloads. Each payload is spread into the
  record as it arrives, and only its status is overwritten.

## Model

| member | source | states |
|---|---|---|
| FormTypes.ParseStatus | types/form.ts:16 | a wire status names a `Status` exactly when it is one of `"typing"`, `"submitted"`, `"inactive"`, and then it is that status's name |
| FormTypes.StatusNameRoundTrip | types/form.ts:16 | each of the three statuses survives the round trip through its wire name |
| FormTypes.Get | types/form.ts:1-15 | each of the nine required properties (firstName, lastName, dateOfBirth, gender, phoneNumber, email, address, preferredLanguage, nationality) is always present; only the five `?:` properties can be absent |
| FormTypes.FieldNameInjective | types/form.ts:2-15 | distinct properties have distinct keys, so a map keyed by property name keeps them apart |
| FormTypes.FieldsDetermineRecord | types/form.ts:1-17 | two records with the same fourteen properties and the same status are the same record |
| FormTypes.WithField | components/PatientForm.tsx:60-64 | the spread `{...form, [name]: value}` sets property `name` to `value` and leaves every other property and the status as they were |
| FormTypes.WithStatus | server/socket.ts:56-59 | the spread `{...data, status: s}` keeps every property of `data` and sets the status to `s`, whatever status `data` carried |
| FormTypes.EmptyRecord | server/socket.ts:14-30 | the blank record has all fourteen properties present and equal to `""` |
| JsStrings.Utf16Length | lib/validation.ts:24 | a string's JavaScript length lies between its character count and twice that |
| JsStrings.Utf16LengthOfBmp | lib/validation.ts:24 | on text inside the Basic Multilingual Plane the JavaScript length is the character count |
| JsStrings.MatchesPlusMeans | lib/validation.ts:13 | `^[class]+$` matches exactly the non-empty strings whose every character is in the class |
| Validation.FieldIssuesEmptyIff | lib/validation.ts:4-31 | a field's chain of checks reports nothing exactly when the field's rule holds: names 1..50 code units; middle name absent or at most 50; gender non-empty and not `"Select"`; phone 8..15 from digits, `+`, `(`, `)`, `-`, whitespace; email non-empty and well-formed; language 1..50 and not `"Select"`; nationality 1..50 ASCII letters and whitespace; emergency contact absent or at most 100; emergency phone absent, empty, or phone-shaped; date of birth and address non-empty |
| Validation.SchemaOrderCoversFields | lib/validation.ts:3-33 | the schema visits every property of the record |
| Validation.FieldIssues | lib/validation.ts:4-31 | every issue a property's chain of checks raises has that property as its path, and the chain raises none exactly when none of its checks fails |
| Validation.IssueReportedIff | lib/validation.ts:3-33 | a parse reports an issue about a property exactly when that property's rule fails |
| Validation.ParseSucceedsIff | lib/validation.ts:3-33 | `patientSchema.parse` reports no issue exactly when the record satisfies every field rule |
| PatientForm.InitialFormIsBlank | components/PatientForm.tsx:25-45 | the initial form has all fourteen properties equal to `""` and no status; the error map starts empty and no date is picked |
| PatientForm.ClearError | components/PatientForm.tsx:69-71 | only the entry for the edited property can change, and only from a non-empty message to `""`; an absent entry is not created |
| PatientForm.HandleChange | components/PatientForm.tsx:58-75 | an input edit changes exactly that property and sets the status to `typing`, clears at most that property's error, and sends `patient-typing` with exactly the new form |
| PatientForm.HandleSelectChange | components/PatientForm.tsx:77-93 | a select change has the same effect: one property and the status change, at most that error is cleared, and the new form is sent as `patient-typing` |
| PatientForm.HandleDateChange | components/PatientForm.tsx:95-114 | unpicking the date leaves form and errors unchanged and sends nothing; picking a day changes only `dateOfBirth` (to the formatted day) and the status, clears at most the `dateOfBirth` error and sends the new form |
| PatientForm.ErrorKeysComeFromIssues | components/PatientForm.tsx:123-127 | every key of the error map is the path of some issue |
| PatientForm.IssuesLeaveErrorKeys | components/PatientForm.tsx:123-127 | every issue leaves an entry in the error map under its path |
| PatientForm.ErrorsKeepLastMessage | components/PatientForm.tsx:124-127 | each entry holds the message of the last issue about that property: a later issue overwrites an earlier one |
| PatientForm.ValidateForm | components/PatientForm.tsx:116-132 | validation succeeds exactly when the form conforms; on success the error map is emptied; on failure it is rebuilt from the issues; in both cases a property has an entry exactly when its rule fails; the form is untouched |
| PatientForm.ErrorKeysAreFields | components/PatientForm.tsx:122-128 | every key of the rebuilt error map is the key of a property whose rule failed |
| PatientForm.Submit | components/PatientForm.tsx:134-146 | a message is sent exactly when the form conforms, and it is one `patient-submit` with the form's properties and status `submitted`; the form itself is unchanged |
| Relay.ResetInactivityTimer | server/socket.ts:35-48 | whatever countdown was pending is replaced: the callback is due from exactly now + 30000 on, and not earlier |
| Relay.Step | server/socket.ts:50-83 | each handler emits at most one message, and it carries the record as the handler leaves it; only connect and disconnect change the socket set, and they leave record and timer alone; any change of record or timer is broadcast to all sockets |
| Relay.BroadcastReachesEachSocketOnce | server/socket.ts:62 | `io.emit` delivers to exactly the connected sockets, all with the same snapshot, one delivery per socket |
| Relay.InitialIsIdle | server/socket.ts:14-33 | at start-up every property is `""`, the status is `inactive`, no countdown is pending, and the timer invariant holds |
| Relay.StepPreservesInv | server/socket.ts:35-83 | every handler keeps the invariant that a countdown is pending exactly when the status is `typing`, and that the status is set |
| Relay.ConnectSendsCurrentRecord | server/socket.ts:50-53 | a connecting socket alone receives the current record; record and timer are unchanged and nobody else is sent anything |
| Relay.DisconnectOnlyDeregisters | server/socket.ts:81-83 | a disconnect only removes the socket: record and timer are unchanged and nothing is sent |
| Relay.TypingReplacesRecord | server/socket.ts:55-64 | after `patient-typing` the record has exactly the payload's properties and status `typing`, whatever status the client sent; the deadline is now + 30000; exactly one broadcast is made, and each connected socket, the sender included, gets the record once |
| Relay.SubmitDisarmsTimer | server/socket.ts:66-79 | after `patient-submit` the record has exactly the payload's properties and status `submitted`, no countdown is pending, and exactly one broadcast is made, reaching each connected socket once |
| Relay.ExpiryDemotesToInactive | server/socket.ts:40-47 | a due callback keeps every property, sets the status to `inactive`, leaves no countdown, keeps the socket set, and makes exactly one broadcast, which reaches each connected socket once |
| Relay.ExpiryFiresOnce | server/socket.ts:40-47 | once the callback has run, further ticks change and send nothing: each armed countdown fires at most once |
| Relay.TickBeforeDeadlineIsQuiet | server/socket.ts:40-47 | before the deadline, or with no countdown, the passing of time changes nothing and sends nothing |
| RelayTraces.RunPreservesInv | server/socket.ts:33-83 | over any trace of events, the timer invariant is kept |
| RelayTraces.ReachableStatesKeepInv | server/socket.ts:14-83 | in every state reachable from start-up, a countdown is pending if and only if the status is `typing` |
| RelayTraces.LastTypingWins | server/socket.ts:55-62 | after any history, a `patient-typing` leaves exactly its payload, stamped `typing`, with its deadline at its own time + 30000 |
| RelayTraces.SubmittedStaysSubmitted | server/socket.ts:66-79 | after a submit, any trace without `patient-typing` keeps the status `submitted` with no countdown, and every emission along it says `submitted` |
| RelayTraces.NoExpiryBeforeDeadline | server/socket.ts:35-47 | connections, disconnections and clock ticks before the deadline leave the record and the deadline alone and broadcast nothing |
| RelayTraces.RestartMovesExpiry | server/socket.ts:35-48 | edits at t and t+29 900 leave the session `typing` at t+30 000; it turns `inactive`, with the second edit's properties, at t+59 900 |
| RelayTraces.ObserverWalkthrough | server/socket.ts:50-79 | an observer joining a fresh server is sent the blank `inactive` record; an edit and then a submit reach it as `typing` and `submitted`; sixty seconds of silence after the submit change and send nothing |
| Session.EditIsStoredAsTyped | server/socket.ts:55-62 | the record the server stores and broadcasts for a form edit is exactly the form the client holds after the edit |
| Session.SubmittedRecordConforms | components/PatientForm.tsx:134-146 | a submit that passes the form's validation leaves on the server a record that conforms to the schema, carries the form's properties, has status `submitted` and no countdown |

## Left out

- The transport is not modelled: the socket.io and HTTP server, CORS, the
  port and origin read from the environment, and every `console.log`. The
  connected sockets are a set of ids. An emission is one delivery per id.
- Real timers are not modelled. `setTimeout`/`clearTimeout` become an integer
  deadline and the `Tick` event. The code never resets its handle to `null`
  after the callback fires. The model reads a fired handle as "no countdown",
  because `clearTimeout` on a fired timer does nothing.
- lib/socket.ts is not part of this model. It is the client socket singleton
  and two thin emit wrappers.
- The zod `.email()` format test is a library rule whose code is not part of
  this model. It enters as the parameter `isEmail`.
- The date-fns `format(date, "yyyy-MM-dd")` call is also a library call. It
  enters as the parameter `format`.
- The wording of the issue raised by a `.max(n)` check that gives no message
  of its own comes from zod. The model uses zod 3's default text. Nothing
  proved depends on it.
- All rendering is out: the component's JSX, components/StaffViewForm.tsx,
  components/navbar.tsx, components/RoleSelectPage.tsx, app/layout.tsx and
  app/staff/page.tsx. These are display only.
- The client's `useEffect` that connects and disconnects its socket is not
  modelled. It is transport.
- Payloads are typed records. The model cannot express a payload that lacks a
  required property, has a non-string value, or has extra keys. The server
  stores such payloads as they come (`...data`). The model can only claim
  that the status is always overwritten.
- JsStrings.Utf16Length: Dafny's `char` is a Unicode scalar value, so the
  model covers only well-formed UTF-16 text. A JavaScript string can also
  hold lone surrogates. Each counts as one unit of `length`, and none matches
  `[0-9+()-\s]` or `[a-zA-Z\s]`. The validator model says nothing about
  such strings.
- The sender of `patient-typing` and `patient-submit` is carried but ignored,
  as in the code. The model does not exclude events from sockets that are not
  registered.
- React's scheduling is not modelled. Each handler runs against the latest
  state, so stale closures between renders are out of scope.
- `handleChange` and `handleSelectChange` take a `Field`, not an arbitrary
  string. The code only binds them to inputs and selects named after the
  record's properties. An unknown name would add a new key, and the model
  does not cover that.
- The schema's `status` rule (`z.enum([...]).optional()`) holds of every
  typed record by construction. The string-level check is `ParseStatus`.
