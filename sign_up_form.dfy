/**
 * `SignUpForm.handleRegister`, the administrators' form for creating a user:
 * validate, then post the seven profile fields and record the outcome.
 */
module SignUpForm {
  import opened Wrappers
  import opened Js

  datatype Fields = Fields(
    title: string, firstName: string, lastName: string, dni: string,
    address: string, healthcenter: string, email: string)

  const REQUIRED_MESSAGE: string := "Todos los campos son obligatorios"
  const DNI_MESSAGE: string := "El DNI debe contener solo números"
  const SESSION_ERROR: string := "Error al crear la sesión"

  /** title, firstName, lastName, dni, address and email have a visible character; healthcenter may be empty. */
  predicate RequiredFilled(f: Fields) {
    Trim(f.title) != "" && Trim(f.firstName) != "" && Trim(f.lastName) != "" &&
    Trim(f.dni) != "" && Trim(f.address) != "" && Trim(f.email) != ""
  }

  function ValidationError(f: Fields): (e: Option<string>)
    ensures e.None? <==> RequiredFilled(f) && IsDigitString(f.dni)
    ensures !RequiredFilled(f) ==> e == Some(REQUIRED_MESSAGE)
    ensures RequiredFilled(f) && !IsDigitString(f.dni) ==> e == Some(DNI_MESSAGE)
  {
    if !RequiredFilled(f) then Some(REQUIRED_MESSAGE)
    else if !IsDigitString(f.dni) then Some(DNI_MESSAGE)
    else None
  }

  /** The form's value for a field name; no other name has one. */
  function FieldValue(f: Fields, name: string): Option<string> {
    match name
    case "title" => Some(f.title)
    case "firstName" => Some(f.firstName)
    case "lastName" => Some(f.lastName)
    case "email" => Some(f.email)
    case "dni" => Some(f.dni)
    case "address" => Some(f.address)
    case "healthcenter" => Some(f.healthcenter)
    case _ => None
  }

  /** The JSON body, in its key order: each key carries the form's own, untrimmed value. */
  function Payload(f: Fields): (p: seq<(string, string)>)
    ensures |p| == 7
    ensures forall i :: 0 <= i < |p| ==> p[i].0 != "password"
    ensures forall i :: 0 <= i < |p| ==> FieldValue(f, p[i].0) == Some(p[i].1)
  {
    [("title", f.title), ("firstName", f.firstName), ("lastName", f.lastName), ("email", f.email),
     ("dni", f.dni), ("address", f.address), ("healthcenter", f.healthcenter)]
  }

  /** Every field is sent exactly once, untrimmed, under its own name. */
  lemma PayloadCarriesEveryField(f: Fields)
    ensures var p := Payload(f);
      (forall i, j :: 0 <= i < j < |p| ==> p[i].0 != p[j].0) &&
      (set i | 0 <= i < |p| :: p[i].0) == {"title", "firstName", "lastName", "email", "dni", "address", "healthcenter"}
  {
    var p := Payload(f);
    assert p[0].0 == "title" && p[1].0 == "firstName" && p[2].0 == "lastName" && p[3].0 == "email";
    assert p[4].0 == "dni" && p[5].0 == "address" && p[6].0 == "healthcenter";
  }

  /** How the `fetch` to the register endpoint ended. */
  datatype PostResult = PostOk | PostRejected(errorField: JsValue) | PostThrew(message: string)

  class SignUpForm {
    /** The shown error; `Null` when there is none. */
    var error: JsValue
    var isLoading: bool
    var successModal: bool

    constructor ()
      ensures error == Null && !isLoading && !successModal
    {
      error := Null;
      isLoading := false;
      successModal := false;
    }

    /**
     * `handleRegister`. The error is cleared first; a validation failure stops
     * before loading starts; otherwise the payload is posted and loading is
     * reset in `finally`.
     */
    method HandleRegister(f: Fields, post: PostResult) returns (sent: Option<seq<(string, string)>>)
      modifies this
      ensures sent.Some? <==> ValidationError(f).None?
      ensures sent.Some? ==> sent.value == Payload(f)
      ensures ValidationError(f).Some? ==>
        error == Str(ValidationError(f).value) && isLoading == old(isLoading) && successModal == old(successModal)
      ensures ValidationError(f).None? ==> !isLoading
      ensures ValidationError(f).None? ==> match post
        case PostOk => error == Null && successModal
        case PostRejected(e) => error == Or(e, Str(SESSION_ERROR)) && successModal == old(successModal)
        case PostThrew(m) => error == Str(m) && successModal == old(successModal)
    {
      error := Null;
      var invalid := ValidationError(f);
      if invalid.Some? {
        error := Str(invalid.value);
        return None;
      }
      isLoading := true;
      sent := Some(Payload(f));
      match post {
        case PostOk =>
          successModal := true;
        case PostRejected(e) =>
          error := Or(e, Str(SESSION_ERROR));
        case PostThrew(m) =>
          error := Str(m);
      }
      isLoading := false;
    }
  }
}
