/**
 * The request gate: a pure decision on the request's path and whether a
 * session is present, and the route matcher that decides which requests
 * reach it at all.
 */
module Middleware {
  /** What the gate does with a request. */
  datatype Decision = Pass | RedirectToLogin | RedirectToAdmin

  /** The path a redirect sends the browser to. */
  function Target(d: Decision): string
    requires d != Pass
  {
    if d == RedirectToLogin then "/login" else "/admin"
  }

  /**
   * `middleware`: a path that textually starts with "/admin" needs a
   * session, and a signed-in visit to exactly "/login" goes to the dashboard.
   */
  function Decide(pathname: string, hasSession: bool): (d: Decision)
    ensures d == RedirectToLogin <==> "/admin" <= pathname && !hasSession
    ensures d == RedirectToAdmin <==> pathname == "/login" && hasSession
  {
    if "/admin" <= pathname && !hasSession then RedirectToLogin
    else if pathname == "/login" && hasSession then RedirectToAdmin
    else Pass
  }

  /**
   * No redirect loop: the page a redirect sends to passes the gate for the
   * same visitor, so a second request is never redirected again.
   */
  lemma RedirectTargetPasses(pathname: string, hasSession: bool)
    ensures var d := Decide(pathname, hasSession);
      d != Pass ==> Decide(Target(d), hasSession) == Pass
  {
    LoginIsNotAdmin();
  }

  /** "/login" is not under "/admin", and the two pages differ. */
  lemma LoginIsNotAdmin()
    ensures !("/admin" <= "/login") && "/admin" != "/login"
  {
    assert "/login"[1] != "/admin"[1];
  }

  /** The dashboard and everything under it pass for a signed-in visitor; so does "/login" for a signed-out one. */
  lemma SignedInAdminPasses(pathname: string)
    requires "/admin" <= pathname
    ensures Decide(pathname, true) == Pass
    ensures Decide("/login", false) == Pass
  {
    LoginIsNotAdmin();
  }

  /**
   * `matcher: ['/admin/:path*', '/login']`: "/admin" itself, any path below
   * it, and "/login". Other paths never reach the gate.
   */
  predicate Matched(pathname: string) {
    || pathname == "/admin"
    || ("/admin/" <= pathname && |pathname| > 7)
    || pathname == "/login"
  }

  /** The gate as deployed: unmatched paths pass untouched. */
  function Route(pathname: string, hasSession: bool): (d: Decision)
    ensures !Matched(pathname) ==> d == Pass
  {
    if Matched(pathname) then Decide(pathname, hasSession) else Pass
  }

  /** Every path the matcher sends to the gate under "/admin" needs a session. */
  lemma AdminPathsGated(pathname: string)
    ensures Matched(pathname) && pathname != "/login" ==>
      (Route(pathname, false) == RedirectToLogin && Route(pathname, true) == Pass)
  {
    if Matched(pathname) && pathname != "/login" {
      assert "/admin" <= pathname by {
        if pathname != "/admin" {
          assert pathname[..6] == "/admin/"[..6];
        }
      }
    }
  }

  /**
   * The prefix test is textual: the decision alone would gate
   * "/administrator", but the matcher never sends that path to it.
   */
  lemma TextualPrefix()
    ensures Decide("/administrator", false) == RedirectToLogin
    ensures Route("/administrator", false) == Pass
    ensures Decide("/admin/login", false) == RedirectToLogin
  {
    assert "/admin" <= "/administrator";
    assert "/admin" <= "/admin/login";
    assert !("/admin/" <= "/administrator") by {
      assert "/administrator"[6] != "/admin/"[6];
    }
  }
}
