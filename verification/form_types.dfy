/**
 The shared `PatientFormData` record of types/form.ts: nine required string
 properties, five optional string properties and an optional status tag whose
 only values are the three literals `"typing"`, `"submitted"` and `"inactive"`.
 */
module FormTypes {
  import opened Options

  /** The three-valued status tag; a record without a tag has `status == None`. */
  datatype Status = Typing | Submitted | Inactive

  /** The string literal each status travels as on the wire. */
  function StatusName(s: Status): string
  {
    match s
    case Typing => "typing"
    case Submitted => "submitted"
    case Inactive => "inactive"
  }

  /** Reading a wire status back: only the three literals name a status. */
  function ParseStatus(text: string): (r: Option<Status>)
    ensures r.Some? <==> (text == "typing" || text == "submitted" || text == "inactive")
    ensures r.Some? ==> StatusName(r.value) == text
  {
    if text == "typing" then Some(Typing)
    else if text == "submitted" then Some(Submitted)
    else if text == "inactive" then Some(Inactive)
    else None
  }

  /** Every status survives the trip through its wire name. */
  lemma StatusNameRoundTrip(s: Status)
    ensures ParseStatus(StatusName(s)) == Some(s)
  {
  }

  /** The record. Required properties are plain strings, optional ones are `Option<string>`. */
  datatype PatientFormData = PatientFormData(
    firstName: string,
    middleName: Option<string>,
    lastName: string,
    dateOfBirth: string,
    gender: string,
    phoneNumber: string,
    email: string,
    address: string,
    preferredLanguage: string,
    nationality: string,
    emergencyContactName: Option<string>,
    emergencyRelationship: Option<string>,
    religion: Option<string>,
    emergencyPhoneNumber: Option<string>,
    status: Option<Status>)

  /** The fourteen string properties of the record, by name (everything except `status`). */
  datatype Field =
    | FirstName | MiddleName | LastName | DateOfBirth | Gender | PhoneNumber | Email
    | Address | PreferredLanguage | Nationality | EmergencyContactName
    | EmergencyRelationship | Religion | EmergencyPhoneNumber

  /** The properties declared with `?:`. */
  predicate IsOptional(f: Field)
  {
    f in {MiddleName, EmergencyContactName, EmergencyRelationship, Religion, EmergencyPhoneNumber}
  }

  /** The JavaScript property key of each field. */
  function FieldName(f: Field): string
  {
    match f
    case FirstName => "firstName"
    case MiddleName => "middleName"
    case LastName => "lastName"
    case DateOfBirth => "dateOfBirth"
    case Gender => "gender"
    case PhoneNumber => "phoneNumber"
    case Email => "email"
    case Address => "address"
    case PreferredLanguage => "preferredLanguage"
    case Nationality => "nationality"
    case EmergencyContactName => "emergencyContactName"
    case EmergencyRelationship => "emergencyRelationship"
    case Religion => "religion"
    case EmergencyPhoneNumber => "emergencyPhoneNumber"
  }

  /** Distinct fields have distinct keys, so a map keyed by `FieldName` loses nothing. */
  lemma FieldNameInjective(f: Field, g: Field)
    ensures FieldName(f) == FieldName(g) ==> f == g
  {
  }

  /** Reading property `f`: `None` when an optional property is absent. */
  function Get(form: PatientFormData, f: Field): (v: Option<string>)
    ensures !IsOptional(f) ==> v.Some?
  {
    match f
    case FirstName => Some(form.firstName)
    case MiddleName => form.middleName
    case LastName => Some(form.lastName)
    case DateOfBirth => Some(form.dateOfBirth)
    case Gender => Some(form.gender)
    case PhoneNumber => Some(form.phoneNumber)
    case Email => Some(form.email)
    case Address => Some(form.address)
    case PreferredLanguage => Some(form.preferredLanguage)
    case Nationality => Some(form.nationality)
    case EmergencyContactName => form.emergencyContactName
    case EmergencyRelationship => form.emergencyRelationship
    case Religion => form.religion
    case EmergencyPhoneNumber => form.emergencyPhoneNumber
  }

  /** Two records hold the same string properties. */
  ghost predicate SameFields(a: PatientFormData, b: PatientFormData)
  {
    forall f :: Get(a, f) == Get(b, f)
  }

  /** The properties read by `Get` together with `status` are the whole record. */
  lemma {:induction false} FieldsDetermineRecord(a: PatientFormData, b: PatientFormData)
    requires SameFields(a, b)
    requires a.status == b.status
    ensures a == b
  {
    assert Get(a, FirstName) == Get(b, FirstName);
    assert Get(a, MiddleName) == Get(b, MiddleName);
    assert Get(a, LastName) == Get(b, LastName);
    assert Get(a, DateOfBirth) == Get(b, DateOfBirth);
    assert Get(a, Gender) == Get(b, Gender);
    assert Get(a, PhoneNumber) == Get(b, PhoneNumber);
    assert Get(a, Email) == Get(b, Email);
    assert Get(a, Address) == Get(b, Address);
    assert Get(a, PreferredLanguage) == Get(b, PreferredLanguage);
    assert Get(a, Nationality) == Get(b, Nationality);
    assert Get(a, EmergencyContactName) == Get(b, EmergencyContactName);
    assert Get(a, EmergencyRelationship) == Get(b, EmergencyRelationship);
    assert Get(a, Religion) == Get(b, Religion);
    assert Get(a, EmergencyPhoneNumber) == Get(b, EmergencyPhoneNumber);
  }

  /** `{ ...form, [FieldName(f)]: value }`: property `f` becomes `value`, nothing else moves. */
  function WithField(form: PatientFormData, f: Field, value: string): (r: PatientFormData)
    ensures Get(r, f) == Some(value)
    ensures forall g :: g != f ==> Get(r, g) == Get(form, g)
    ensures r.status == form.status
  {
    match f
    case FirstName => form.(firstName := value)
    case MiddleName => form.(middleName := Some(value))
    case LastName => form.(lastName := value)
    case DateOfBirth => form.(dateOfBirth := value)
    case Gender => form.(gender := value)
    case PhoneNumber => form.(phoneNumber := value)
    case Email => form.(email := value)
    case Address => form.(address := value)
    case PreferredLanguage => form.(preferredLanguage := value)
    case Nationality => form.(nationality := value)
    case EmergencyContactName => form.(emergencyContactName := Some(value))
    case EmergencyRelationship => form.(emergencyRelationship := Some(value))
    case Religion => form.(religion := Some(value))
    case EmergencyPhoneNumber => form.(emergencyPhoneNumber := Some(value))
  }

  /** `{ ...form, status: s }`: the tag is overwritten, every string property is kept. */
  function WithStatus(form: PatientFormData, s: Status): (r: PatientFormData)
    ensures SameFields(r, form)
    ensures r.status == Some(s)
  {
    form.(status := Some(s))
  }

  /** The record whose fourteen string properties are all present and equal to `""`. */
  function EmptyRecord(status: Option<Status>): (r: PatientFormData)
    ensures forall f :: Get(r, f) == Some("")
    ensures r.status == status
  {
    PatientFormData("", Some(""), "", "", "", "", "", "", "", "",
                    Some(""), Some(""), Some(""), Some(""), status)
  }
}
