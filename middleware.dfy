/**
 * The route guard (src/middleware.ts): from the request path, the
 * `auth-token` cookie and the outcome of verifying it, decide whether the
 * request goes through, is sent to a dashboard, or is sent to the login page.
 */
module Middleware {

  /** The outcome of `jwtVerify` on the token: it throws, or yields the payload's role. */
  datatype Verification = Invalid | Valid(role: string)

  datatype Decision =
    | Next
    | Redirect(path: string)
      /** `/login?from=<pathname>`, deleting the `auth-token` cookie when `clearCookie`. */
    | LoginRedirect(from: string, clearCookie: bool)

  const PatientDashboard: string := "/patient/dashboard"
  const DoctorDashboard: string := "/doctor/dashboard"

  /** `pathname.startsWith(prefix)`: a raw prefix test, so "/doctorate" is under "/doctor". */
  predicate StartsWith(s: string, prefix: string) {
    |prefix| <= |s| && s[..|prefix|] == prefix
  }

  /** A string whose character at `i` differs from the prefix's does not start with it. */
  lemma DiffersAt(s: string, prefix: string, i: int)
    requires 0 <= i < |prefix| && i < |s| && s[i] != prefix[i]
    ensures !StartsWith(s, prefix)
  {
    if |prefix| <= |s| {
      assert s[..|prefix|][i] == s[i];
    }
  }

  /** A guarded prefix: no token goes to login, a bad token to login with the cookie deleted, a wrong role to `elsewhere`. */
  function Guard(pathname: string, token: string, verification: Verification, role: string, elsewhere: string): Decision {
    if token == "" then LoginRedirect(pathname, false)
    else match verification
      case Invalid => LoginRedirect(pathname, true)
      case Valid(r) => if r != role then Redirect(elsewhere) else Next
  }

  /** `middleware`: the prefixes are tried in the order /patient, /doctor, /book, then the auth pages. */
  function Route(pathname: string, token: string, verification: Verification): (r: Decision)
    ensures (StartsWith(pathname, "/patient") || StartsWith(pathname, "/doctor") || StartsWith(pathname, "/book")) && token == "" ==>
      r == LoginRedirect(pathname, false)
    ensures ((StartsWith(pathname, "/patient") || StartsWith(pathname, "/doctor") || StartsWith(pathname, "/book"))
      && token != "" && verification.Invalid?) ==> r == LoginRedirect(pathname, true)
    ensures (!StartsWith(pathname, "/patient") && !StartsWith(pathname, "/doctor") && !StartsWith(pathname, "/book")
      && pathname != "/login" && pathname != "/signup") ==> r == Next
  {
    if StartsWith(pathname, "/patient") then Guard(pathname, token, verification, "PATIENT", DoctorDashboard)
    else if StartsWith(pathname, "/doctor") then Guard(pathname, token, verification, "DOCTOR", PatientDashboard)
    else if StartsWith(pathname, "/book") then Guard(pathname, token, verification, "PATIENT", DoctorDashboard)
    else if pathname == "/login" || pathname == "/signup" then
      if token != "" && verification.Valid? then
        Redirect(if verification.role == "DOCTOR" then DoctorDashboard else PatientDashboard)
      else Next
    else Next
  }

  /** Under /patient and /book only a verified PATIENT passes; any other verified role goes to the doctor dashboard. */
  lemma PatientAreas(pathname: string, token: string, role: string)
    requires StartsWith(pathname, "/patient") || (StartsWith(pathname, "/book") && !StartsWith(pathname, "/doctor"))
    requires token != ""
    ensures Route(pathname, token, Valid(role)) == Next <==> role == "PATIENT"
    ensures role != "PATIENT" ==> Route(pathname, token, Valid(role)) == Redirect("/doctor/dashboard")
  {
  }

  /** Under /doctor (and not /patient) only a verified DOCTOR passes; any other verified role goes to the patient dashboard. */
  lemma DoctorArea(pathname: string, token: string, role: string)
    requires StartsWith(pathname, "/doctor") && !StartsWith(pathname, "/patient")
    requires token != ""
    ensures Route(pathname, token, Valid(role)) == Next <==> role == "DOCTOR"
    ensures role != "DOCTOR" ==> Route(pathname, token, Valid(role)) == Redirect("/patient/dashboard")
  {
  }

  /**
   * On /login and /signup a verified DOCTOR goes to the doctor dashboard,
   * every other verified role to the patient dashboard, and a missing or
   * invalid token stays.
   */
  lemma AuthPages(pathname: string, token: string, verification: Verification)
    requires pathname == "/login" || pathname == "/signup"
    ensures token != "" && verification.Valid? && verification.role == "DOCTOR" ==> Route(pathname, token, verification) == Redirect("/doctor/dashboard")
    ensures token != "" && verification.Valid? && verification.role != "DOCTOR" ==> Route(pathname, token, verification) == Redirect("/patient/dashboard")
    ensures token == "" || verification.Invalid? ==> Route(pathname, token, verification) == Next
  {
    assert !StartsWith(pathname, "/patient") && !StartsWith(pathname, "/doctor") && !StartsWith(pathname, "/book") by {
      assert pathname[..1] == "/";
      if pathname == "/login" {
        assert pathname[1] == 'l';
      } else {
        assert pathname[1] == 's';
      }
    }
  }

  /** A request passes exactly when it is outside the guarded prefixes and not a signed-in visit to an auth page, or it carries the right verified role. */
  lemma NextIff(pathname: string, token: string, verification: Verification)
    ensures Route(pathname, token, verification) == Next <==>
      if StartsWith(pathname, "/patient") || (StartsWith(pathname, "/book") && !StartsWith(pathname, "/doctor")) then
        token != "" && verification == Valid("PATIENT")
      else if StartsWith(pathname, "/doctor") then
        token != "" && verification == Valid("DOCTOR")
      else
        !((pathname == "/login" || pathname == "/signup") && token != "" && verification.Valid?)
  {
  }

  /** The prefix test is raw: "/doctorate" is guarded as a doctor page and "/bookmarks" as a booking page. */
  lemma RawPrefixes()
    ensures Route("/doctorate", "", Invalid) == LoginRedirect("/doctorate", false)
    ensures Route("/bookmarks", "t", Valid("DOCTOR")) == Redirect("/doctor/dashboard")
  {
    assert StartsWith("/doctorate", "/doctor");
    DiffersAt("/doctorate", "/patient", 1);
    assert StartsWith("/bookmarks", "/book");
    DiffersAt("/bookmarks", "/patient", 1);
    DiffersAt("/bookmarks", "/doctor", 1);
  }
}
