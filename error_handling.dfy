/**
 * `handleApiError` of the front end: classifies a failed axios request into
 * an `ApiError` record by the response's presence, its status, and its body.
 */
module ErrorHandling {
  import opened Wrappers
  import opened Js

  /** `error.response`: an HTTP status and the parsed body. */
  datatype HttpResponse = HttpResponse(status: int, data: JsValue)

  /**
   * The record returned. Fields copied from the body keep whatever value the
   * body held, so they are JS values rather than strings.
   */
  datatype ApiError = ApiError(code: JsValue, message: JsValue, severity: JsValue, isUserFacing: JsValue)

  /** The call returns a record, or throws a TypeError reading `data.message` on a 422 without a body. */
  datatype Handled = Classified(err: ApiError) | Threw

  const NETWORK_MESSAGE: string := "Error de conexión. Por favor, verifica tu conexión a internet."
  const UNAUTHORIZED_MESSAGE: string := "Sesión expirada. Por favor, vuelve a iniciar sesión."
  const FORBIDDEN_MESSAGE: string := "No tienes permisos para realizar esta acción."
  const VALIDATION_MESSAGE: string := "Error de validación en los datos."
  const SERVER_MESSAGE: string := "Error interno del servidor. Por favor, intenta más tarde."
  const UNKNOWN_MESSAGE: string := "Ha ocurrido un error inesperado."

  function Builtin(code: string, message: string, severity: string): (e: ApiError)
    ensures e.isUserFacing == Bool(true)
  {
    ApiError(Str(code), Str(message), Str(severity), Bool(true))
  }

  /** A body that carries a truthy `error` field, which the custom branch reports. */
  predicate HasCustomError(data: JsValue) {
    !IsNullish(data) && Truthy(Prop(data, "error"))
  }

  function HandleApiError(response: Option<HttpResponse>): (h: Handled)
    ensures response.None? ==> h == Classified(Builtin("NETWORK_ERROR", NETWORK_MESSAGE, "medium"))
    ensures response.Some? && response.value.status == 401 ==> h == Classified(Builtin("UNAUTHORIZED", UNAUTHORIZED_MESSAGE, "high"))
    ensures response.Some? && response.value.status == 403 ==> h == Classified(Builtin("FORBIDDEN", FORBIDDEN_MESSAGE, "high"))
    ensures h.Threw? <==> response.Some? && response.value.status == 422 && IsNullish(response.value.data)
    ensures response.Some? && response.value.status >= 500 ==> h == Classified(Builtin("SERVER_ERROR", SERVER_MESSAGE, "high"))
  {
    match response
    case None => Classified(Builtin("NETWORK_ERROR", NETWORK_MESSAGE, "medium"))
    case Some(HttpResponse(status, data)) =>
      if status == 401 then Classified(Builtin("UNAUTHORIZED", UNAUTHORIZED_MESSAGE, "high"))
      else if status == 403 then Classified(Builtin("FORBIDDEN", FORBIDDEN_MESSAGE, "high"))
      else if status == 422 then
        if IsNullish(data) then Threw
        else Classified(ApiError(Str("VALIDATION_ERROR"), Or(Prop(data, "message"), Str(VALIDATION_MESSAGE)), Str("low"), Bool(true)))
      else if status >= 500 then Classified(Builtin("SERVER_ERROR", SERVER_MESSAGE, "high"))
      else if HasCustomError(data) then
        Classified(ApiError(
          Or(Prop(data, "code"), Str("UNKNOWN_ERROR")),
          Prop(data, "error"),
          Or(Prop(data, "severity"), Str("medium")),
          Coalesce(Prop(data, "isUserFacing"), Bool(true))))
      else Classified(Builtin("UNKNOWN_ERROR", UNKNOWN_MESSAGE, "medium"))
  }

  /** A 422 reports the body's `message` when it is truthy, else the default text. */
  lemma ValidationMessage(data: JsValue)
    requires !IsNullish(data)
    ensures var h := HandleApiError(Some(HttpResponse(422, data)));
      h.Classified? && h.err.code == Str("VALIDATION_ERROR") && h.err.severity == Str("low") &&
      (Truthy(Prop(data, "message")) ==> h.err.message == Prop(data, "message")) &&
      (!Truthy(Prop(data, "message")) ==> h.err.message == Str(VALIDATION_MESSAGE))
  {
  }

  /** The status branches win over the body: a 5xx with a custom `error` is still a server error. */
  lemma StatusBeforeBody(status: int, data: JsValue)
    requires status >= 500 && HasCustomError(data)
    ensures HandleApiError(Some(HttpResponse(status, data))).err.code == Str("SERVER_ERROR")
  {
  }

  /**
   * The custom branch runs exactly for a status outside 401, 403, 422 and 5xx
   * whose body has a truthy `error`; it reports that error, takes a truthy
   * `code` and `severity` from the body and falls back to 'UNKNOWN_ERROR' and
   * 'medium' otherwise, and keeps any non-nullish `isUserFacing` (an explicit
   * false among them) while defaulting a missing or null one to true.
   */
  lemma CustomErrorBranch(status: int, data: JsValue)
    requires status != 401 && status != 403 && status != 422 && status < 500
    ensures var h := HandleApiError(Some(HttpResponse(status, data)));
      h.Classified? &&
      (HasCustomError(data) ==> h.err.message == Prop(data, "error")) &&
      (HasCustomError(data) && Truthy(Prop(data, "code")) ==> h.err.code == Prop(data, "code")) &&
      (HasCustomError(data) && !Truthy(Prop(data, "code")) ==> h.err.code == Str("UNKNOWN_ERROR")) &&
      (HasCustomError(data) && Truthy(Prop(data, "severity")) ==> h.err.severity == Prop(data, "severity")) &&
      (HasCustomError(data) && !Truthy(Prop(data, "severity")) ==> h.err.severity == Str("medium")) &&
      (HasCustomError(data) && !IsNullish(Prop(data, "isUserFacing")) ==> h.err.isUserFacing == Prop(data, "isUserFacing")) &&
      (HasCustomError(data) && Prop(data, "isUserFacing") == Bool(false) ==> h.err.isUserFacing == Bool(false)) &&
      (HasCustomError(data) && IsNullish(Prop(data, "isUserFacing")) ==> h.err.isUserFacing == Bool(true)) &&
      (!HasCustomError(data) ==> h.err == Builtin("UNKNOWN_ERROR", UNKNOWN_MESSAGE, "medium"))
  {
  }

  /** Every outcome that does not copy the body is user-facing. */
  lemma BuiltinBranchesUserFacing(response: Option<HttpResponse>)
    requires response.None? || !HasCustomError(response.value.data) || response.value.status in {401, 403, 422} || response.value.status >= 500
    ensures var h := HandleApiError(response); h.Classified? ==> h.err.isUserFacing == Bool(true)
  {
  }
}
