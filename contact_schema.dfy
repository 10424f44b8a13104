/**
 * `contactFormSchema`: one rule set per field. The schema reports every
 * failed rule, field by field in declaration order.
 */
module ContactSchema {
  import opened Js

  datatype ContactForm = ContactForm(nombre: string, apellido: string, telefono: string, email: string, centroDeSalud: string)

  /** An issue: the field's path and the message of the rule it broke. */
  datatype Issue = Issue(path: string, message: string)

  const NOMBRE_REQUIRED: string := "El nombre es requerido"
  const APELLIDO_REQUIRED: string := "El apellido es requerido"
  const TELEFONO_REQUIRED: string := "El teléfono es requerido"
  const TELEFONO_FORMAT: string := "El teléfono debe tener entre 7 y 15 dígitos"
  const EMAIL_INVALID: string := "El email es inválido"
  const CENTRO_REQUIRED: string := "El centro de salud es requerido"

  /** `\d{7,15}` */
  predicate IsPhoneDigits(d: string) {
    7 <= |d| <= 15 && forall i :: 0 <= i < |d| ==> IsAsciiDigit(d[i])
  }

  /** `^\+?\d{7,15}$` */
  predicate IsPhone(s: string) {
    if |s| > 0 && s[0] == '+' then IsPhoneDigits(s[1..]) else IsPhoneDigits(s)
  }

  /** `nonempty`: length only, so white space counts. */
  function Required(path: string, value: string, message: string): (issues: seq<Issue>)
    ensures issues == [] <==> value != ""
  {
    if value == "" then [Issue(path, message)] else []
  }

  /**
   * The issues of a parse, in order. The library's e-mail check is outside the
   * model and enters as `emailValid`.
   */
  function ContactIssues(form: ContactForm, emailValid: bool): (issues: seq<Issue>)
    ensures issues == [] <==>
      form.nombre != "" && form.apellido != "" && form.telefono != "" && IsPhone(form.telefono) &&
      emailValid && form.centroDeSalud != ""
    ensures forall i :: 0 <= i < |issues| ==> issues[i].path in {"nombre", "apellido", "telefono", "email", "centroDeSalud"}
  {
    Required("nombre", form.nombre, NOMBRE_REQUIRED) +
    Required("apellido", form.apellido, APELLIDO_REQUIRED) +
    Required("telefono", form.telefono, TELEFONO_REQUIRED) +
    (if IsPhone(form.telefono) then [] else [Issue("telefono", TELEFONO_FORMAT)]) +
    (if emailValid then [] else [Issue("email", EMAIL_INVALID)]) +
    Required("centroDeSalud", form.centroDeSalud, CENTRO_REQUIRED)
  }

  /** An empty phone breaks both of its rules, and both are reported. */
  lemma EmptyPhoneTwoIssues(form: ContactForm, emailValid: bool)
    requires form.nombre != "" && form.apellido != "" && form.centroDeSalud != "" && emailValid && form.telefono == ""
    ensures ContactIssues(form, emailValid) == [Issue("telefono", TELEFONO_REQUIRED), Issue("telefono", TELEFONO_FORMAT)]
  {
  }

  /** The '+' is not a digit: "+1234567" has seven digits and passes, "+123456" has six and fails. */
  lemma PlusNotCounted()
    ensures IsPhone("+1234567") && !IsPhone("+123456")
    ensures IsPhone("1234567") && !IsPhone("++1234567")
  {
    var seven := "1234567";
    forall i | 0 <= i < |seven| ensures IsAsciiDigit(seven[i]) {
      assert seven[i] in "1234567";
    }
    assert "+1234567"[1..] == seven;
    assert "+123456"[1..] == "123456";
    var doubled := "++1234567";
    var rest := doubled[1..];
    assert doubled[0] == '+' && rest[0] == '+' && |rest| == 8;
    assert !IsAsciiDigit(rest[0]);
  }

  /** White space is accepted where only non-emptiness is asked. */
  lemma BlankNamesPass(form: ContactForm)
    requires form.nombre == " " && form.apellido == " " && form.centroDeSalud == " "
    requires IsPhone(form.telefono)
    ensures ContactIssues(form, true) == []
  {
  }
}
