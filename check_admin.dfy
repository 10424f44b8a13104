/** `checkAdminMiddleware`: only sessions whose `admin` claim is exactly `true` pass. */
module CheckAdmin {
  import opened Wrappers
  import opened Js
  import opened Session

  const NO_COOKIE: string := "No se proporcionó cookie de sesión."
  const NO_PERMISSION: string := "No tienes permisos para realizar esta acción."
  const INVALID_COOKIE: string := "Cookie de sesión inválida."

  /**
   * The gate. `req.cookies.__session` on a missing jar throws inside the
   * `try`, so it ends in the same 401 as a rejected verification.
   */
  function CheckAdminMiddleware(cookies: Cookies, verify: Verifier): (o: Outcome)
    ensures o.Proceed? <==>
      SessionCookie(cookies).Some? && verify(SessionCookie(cookies).value).Some? &&
      Claim(verify(SessionCookie(cookies).value).value, "admin") == Bool(true)
    ensures o.Proceed? ==> o.user == verify(SessionCookie(cookies).value).value
    ensures cookies.NoJar? ==> o == Respond(401, INVALID_COOKIE)
    ensures cookies.Jar? && SessionCookie(cookies).None? ==> o == Respond(401, NO_COOKIE)
    ensures SessionCookie(cookies).Some? && verify(SessionCookie(cookies).value).None? ==> o == Respond(401, INVALID_COOKIE)
    ensures o.Respond? ==> (o.status == 403 <==> o.error == NO_PERMISSION)
    ensures o.Respond? ==> o.status == 401 || o.status == 403
  {
    if cookies.NoJar? then Respond(401, INVALID_COOKIE)
    else
      match SessionCookie(cookies)
      case None => Respond(401, NO_COOKIE)
      case Some(cookie) =>
        match verify(cookie)
        case None => Respond(401, INVALID_COOKIE)
        case Some(decoded) =>
          if Claim(decoded, "admin") == Bool(true) then Proceed(decoded)
          else Respond(403, NO_PERMISSION)
  }

  /** A truthy `admin` claim that is not the boolean `true` is refused with 403. */
  lemma TruthyNonBooleanAdminForbidden(cookie: string, admin: JsValue)
    requires cookie != "" && Truthy(admin) && admin != Bool(true)
    ensures CheckAdminMiddleware(Jar(map[SESSION_COOKIE := cookie]), c => Some(map["admin" := admin])) == Respond(403, NO_PERMISSION)
  {
  }
}
