/**
 * The two data checks of the front end's security utilities: the boolean
 * `verifyDataIntegrity` and the throwing `validateMedicalUserData`.
 */
module Security {
  import opened Wrappers
  import opened Js

  const CRITICAL_FIELDS: seq<string> := ["uid", "email", "approved"]
  const REQUIRED_FIELDS: seq<string> := ["email", "approved", "admin", "email_verified", "uid"]

  const INVALID_DATA: string := "Datos de usuario inválidos"
  const MISSING_FIELD_PREFIX: string := "Campo requerido faltante: "
  const INVALID_EMAIL: string := "Email inválido"

  /** `!data || typeof data !== 'object'` fails; arrays are objects and get through. */
  predicate IsNonNullObject(data: JsValue) {
    Truthy(data) && IsObject(data)
  }

  /** `typeof v === 'string' && v.includes('@')` */
  predicate IsEmailString(v: JsValue) {
    v.Str? && '@' in v.s
  }

  /** The first of `fields`, in order, for which `field in data` is false. */
  function FirstMissing(data: JsValue, fields: seq<string>): (m: Option<string>)
    ensures m.None? <==> forall i :: 0 <= i < |fields| ==> HasKey(data, fields[i])
    ensures m.Some? ==> exists i :: (0 <= i < |fields| && fields[i] == m.value && !HasKey(data, m.value) &&
      forall j :: 0 <= j < i ==> HasKey(data, fields[j]))
  {
    if fields == [] then None
    else if !HasKey(data, fields[0]) then Some(fields[0])
    else
      var rest := FirstMissing(data, fields[1..]);
      assert forall i :: 1 <= i < |fields| ==> fields[i] == fields[1..][i - 1];
      rest
  }

  /** `verifyDataIntegrity(data)`: the checks in source order, never throwing. */
  predicate VerifyDataIntegrity(data: JsValue) {
    IsNonNullObject(data) &&
    FirstMissing(data, CRITICAL_FIELDS).None? &&
    Prop(data, "uid").Str? && |Prop(data, "uid").s| != 0 &&
    IsEmailString(Prop(data, "email")) &&
    Prop(data, "approved").Bool?
  }

  /** What a well-formed user record looks like, stated directly on the object's properties. */
  predicate WellFormedUser(data: JsValue) {
    data.Obj? &&
    "uid" in data.props && data.props["uid"].Str? && data.props["uid"].s != "" &&
    "email" in data.props && IsEmailString(data.props["email"]) &&
    "approved" in data.props && data.props["approved"].Bool?
  }

  /** The key-presence loop adds nothing: the type checks alone already decide the result. */
  lemma VerifyDataIntegrityIff(data: JsValue)
    ensures VerifyDataIntegrity(data) <==> WellFormedUser(data)
  {
    if WellFormedUser(data) {
      assert FirstMissing(data, CRITICAL_FIELDS).None? by {
        assert forall i :: 0 <= i < |CRITICAL_FIELDS| ==> HasKey(data, CRITICAL_FIELDS[i]);
      }
    }
  }

  /** `validateMedicalUserData(data)`: the input itself, or the message of the error thrown. */
  function ValidateMedicalUserData(data: JsValue): (r: Result<JsValue, string>)
    ensures r.Ok? ==> r.value == data
    ensures r.Ok? <==> (IsNonNullObject(data) && (forall i :: 0 <= i < |REQUIRED_FIELDS| ==> HasKey(data, REQUIRED_FIELDS[i])) &&
      IsEmailString(Prop(data, "email")))
    ensures !IsNonNullObject(data) ==> r == Err(INVALID_DATA)
  {
    if !IsNonNullObject(data) then Err(INVALID_DATA)
    else match FirstMissing(data, REQUIRED_FIELDS)
      case Some(field) => Err(MISSING_FIELD_PREFIX + field)
      case None =>
        if !IsEmailString(Prop(data, "email")) then Err(INVALID_EMAIL)
        else Ok(data)
  }

  /** The error for an object names the first required key, in the listed order, that it lacks. */
  lemma MissingFieldNamed(data: JsValue, k: nat)
    requires IsNonNullObject(data) && k < |REQUIRED_FIELDS|
    requires !HasKey(data, REQUIRED_FIELDS[k]) && forall j :: 0 <= j < k ==> HasKey(data, REQUIRED_FIELDS[j])
    ensures ValidateMedicalUserData(data) == Err(MISSING_FIELD_PREFIX + REQUIRED_FIELDS[k])
  {
    var m := FirstMissing(data, REQUIRED_FIELDS);
    var i :| 0 <= i < |REQUIRED_FIELDS| && REQUIRED_FIELDS[i] == m.value && !HasKey(data, m.value) &&
      forall j :: 0 <= j < i ==> HasKey(data, REQUIRED_FIELDS[j]);
    assert i == k;
  }

  /** An array passes the object test, so it is reported as lacking `email`. */
  lemma ArrayLacksEmail(items: seq<JsValue>)
    ensures ValidateMedicalUserData(Arr(items)) == Err(MISSING_FIELD_PREFIX + "email")
  {
  }

  /** Validation checks presence only: a record with a numeric `uid` validates but fails the integrity check. */
  lemma ValidatedYetNotIntact()
    ensures var d := Obj(map["email" := Str("a@b"), "approved" := Null, "admin" := Null, "email_verified" := Null, "uid" := Num(7)]);
      ValidateMedicalUserData(d).Ok? && !VerifyDataIntegrity(d)
  {
    var d := Obj(map["email" := Str("a@b"), "approved" := Null, "admin" := Null, "email_verified" := Null, "uid" := Num(7)]);
    VerifyDataIntegrityIff(d);
  }

  /** The integrity check does not require `admin`: an intact record can still fail validation. */
  lemma IntactYetNotValidated()
    ensures var d := Obj(map["uid" := Str("u"), "email" := Str("a@b"), "approved" := Bool(true)]);
      VerifyDataIntegrity(d) && ValidateMedicalUserData(d) == Err(MISSING_FIELD_PREFIX + "admin")
  {
    var d := Obj(map["uid" := Str("u"), "email" := Str("a@b"), "approved" := Bool(true)]);
    VerifyDataIntegrityIff(d);
    MissingFieldNamed(d, 2);
  }
}
