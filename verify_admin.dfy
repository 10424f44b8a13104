/**
 * `verifyAdminController` and the `/verify_admin` route, where it runs after
 * `checkAdminMiddleware` and before the handler that echoes the user.
 */
module VerifyAdmin {
  import opened Wrappers
  import opened Js
  import opened Session
  import CheckAdmin

  const NOT_AUTHENTICATED: string := "No autenticado"
  const NOT_AUTHORIZED: string := "No autorizado"
  const INVALID_SESSION: string := "Sesión inválida"

  /**
   * The controller: the same three steps as `checkAdminMiddleware`, but the
   * `admin` claim only has to be truthy. A missing jar throws and is caught.
   */
  function VerifyAdminController(cookies: Cookies, verify: Verifier): (o: Outcome)
    ensures o.Proceed? <==>
      SessionCookie(cookies).Some? && verify(SessionCookie(cookies).value).Some? &&
      Truthy(Claim(verify(SessionCookie(cookies).value).value, "admin"))
    ensures o.Proceed? ==> o.user == verify(SessionCookie(cookies).value).value
    ensures cookies.NoJar? ==> o == Respond(401, INVALID_SESSION)
    ensures cookies.Jar? && SessionCookie(cookies).None? ==> o == Respond(401, NOT_AUTHENTICATED)
    ensures SessionCookie(cookies).Some? && verify(SessionCookie(cookies).value).None? ==> o == Respond(401, INVALID_SESSION)
    ensures o.Respond? ==> (o.status == 403 <==> o.error == NOT_AUTHORIZED)
  {
    if cookies.NoJar? then Respond(401, INVALID_SESSION)
    else
      match SessionCookie(cookies)
      case None => Respond(401, NOT_AUTHENTICATED)
      case Some(cookie) =>
        match verify(cookie)
        case None => Respond(401, INVALID_SESSION)
        case Some(decoded) =>
          if !Truthy(Claim(decoded, "admin")) then Respond(403, NOT_AUTHORIZED)
          else Proceed(decoded)
  }

  /** What the `/verify_admin` route answers. */
  datatype RouteReply = Rejected(status: int, error: string) | Echo(uid: JsValue, email: JsValue, admin: JsValue, approved: JsValue)

  /**
   * The route: the middleware, then the controller (which verifies the cookie
   * again, with the same verification result), then the handler.
   */
  function VerifyAdminRoute(cookies: Cookies, verify: Verifier): (r: RouteReply)
    ensures r.Echo? ==> r.admin == Bool(true)
  {
    match CheckAdmin.CheckAdminMiddleware(cookies, verify)
    case Respond(s, e) => Rejected(s, e)
    case Proceed(_) =>
      match VerifyAdminController(cookies, verify)
      case Respond(s, e) => Rejected(s, e)
      case Proceed(user) => Echo(Claim(user, "uid"), Claim(user, "email"), Claim(user, "admin"), Claim(user, "approved"))
  }

  /** The middleware is strictly stronger than the controller: whoever it lets through, the controller does too. */
  lemma MiddlewareImpliesController(cookies: Cookies, verify: Verifier)
    ensures CheckAdmin.CheckAdminMiddleware(cookies, verify).Proceed? ==> VerifyAdminController(cookies, verify).Proceed?
  {
  }

  /**
   * The route echoes a user iff the session cookie is present and verified and
   * its `admin` claim is exactly `true`; every refusal is the middleware's own answer.
   */
  lemma RouteAdmitsExactlyStrictAdmins(cookies: Cookies, verify: Verifier)
    ensures VerifyAdminRoute(cookies, verify).Echo? <==>
      SessionCookie(cookies).Some? && verify(SessionCookie(cookies).value).Some? &&
      Claim(verify(SessionCookie(cookies).value).value, "admin") == Bool(true)
    ensures VerifyAdminRoute(cookies, verify).Rejected? ==>
      CheckAdmin.CheckAdminMiddleware(cookies, verify) ==
        Respond(VerifyAdminRoute(cookies, verify).status, VerifyAdminRoute(cookies, verify).error)
  {
    MiddlewareImpliesController(cookies, verify);
  }
}
