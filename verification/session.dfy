/**
 The form and the relay together: what the patient's form sends is what every
 observer is shown.
 */
module Session {
  import opened Options
  import opened FormTypes
  import opened Validation
  import opened PatientForm
  import opened Relay

  /** The payload a client handler sends, as the server hands it to its typing or submit handler. */
  function Receive(from: SocketId, m: Outgoing): Event
  {
    match m
    case SendTyping(data) => PatientTyping(from, data)
    case SendSubmit(data) => PatientSubmit(from, data)
  }

  /** A form edit reaches the server unchanged: the stored and broadcast record is the edited form itself. */
  lemma EditIsStoredAsTyped(st: ClientState, f: Field, value: string, s: ServerState, now: int, from: SocketId)
    ensures Step(s, now, Receive(from, HandleChange(st, f, value).sent.value)).next.latest
         == HandleChange(st, f, value).next.form
    ensures Step(s, now, Receive(from, HandleChange(st, f, value).sent.value)).emitted
         == [ToAll(HandleChange(st, f, value).next.form)]
  {
  }

  /**
   A submit that gets through the form's validation leaves on the server a
   record that conforms to the schema, carries the form's properties and has
   status `submitted`.
   */
  lemma SubmittedRecordConforms(st: ClientState, isEmail: string -> bool, s: ServerState, now: int, from: SocketId)
    requires Submit(st, isEmail).sent.Some?
    ensures Conforms(Step(s, now, Receive(from, Submit(st, isEmail).sent.value)).next.latest, isEmail)
    ensures SameFields(Step(s, now, Receive(from, Submit(st, isEmail).sent.value)).next.latest, st.form)
    ensures Step(s, now, Receive(from, Submit(st, isEmail).sent.value)).next.latest.status == Some(Submitted)
    ensures Step(s, now, Receive(from, Submit(st, isEmail).sent.value)).next.deadline.None?
  {
    var latest := Step(s, now, Receive(from, Submit(st, isEmail).sent.value)).next.latest;
    FieldsDetermineRecord(latest, WithStatus(st.form, Submitted));
    forall f ensures FieldAccepted(latest, f, isEmail) {
      assert FieldAccepted(st.form, f, isEmail);
    }
  }
}
