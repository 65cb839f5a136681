/** The route guard of the React front end: a page wrapped by it is rendered only for a signed-in
    user whose role the page allows; everyone else is redirected. The stored `userInfo` is read
    into its `token` and `role` fields. */
module ProtectedRoute {
  import opened Common

  /** What the guard renders: a redirect to one of four paths, or the wrapped page. */
  datatype Outcome = ToLogin | ToDashboard | ToDoctorSearch | ToHome | RenderPage

  function PathOf(o: Outcome): string {
    match o
    case ToLogin => "/login"
    case ToDashboard => "/dashboard"
    case ToDoctorSearch => "/curesight/search"
    case ToHome => "/"
    case RenderPage => ""
  }

  /** `!token` is false: a token is present and not the empty string. */
  predicate SignedIn(token: Option<string>) {
    token.Some? && token.value != ""
  }

  /** An empty `allowedRoles` (the default) admits every role; otherwise the role must be listed. */
  predicate Admits(allowedRoles: seq<string>, role: Option<string>) {
    |allowedRoles| == 0 || (role.Some? && role.value in allowedRoles)
  }

  /** Where a user turned away by the role check is sent, by the role alone. */
  function HomeOf(role: Option<string>): (o: Outcome)
    ensures o != RenderPage && o != ToLogin
    ensures o == ToDashboard <==> role == Some("patient")
    ensures o == ToDoctorSearch <==> role == Some("doctor")
  {
    if role == Some("patient") then ToDashboard
    else if role == Some("doctor") then ToDoctorSearch
    else ToHome
  }

  /** The guard: the page is rendered exactly when the user is signed in and admitted; without a
      token the user goes to the login page whatever the role; a signed-in user who is not
      admitted goes to the home of the role. */
  function Guard(token: Option<string>, role: Option<string>, allowedRoles: seq<string>): (o: Outcome)
    ensures o == RenderPage <==> SignedIn(token) && Admits(allowedRoles, role)
    ensures o == ToLogin <==> !SignedIn(token)
    ensures SignedIn(token) && !Admits(allowedRoles, role) ==> o == HomeOf(role)
  {
    if !SignedIn(token) then ToLogin
    else if |allowedRoles| > 0 && !(role.Some? && role.value in allowedRoles) then HomeOf(role)
    else RenderPage
  }

  /** Listing more roles on a guarded page never turns away a user it admitted before, and a
      user it turns away lands on the same page whatever the list that excludes the role. */
  lemma GuardMonotone(token: Option<string>, role: Option<string>, a: seq<string>, b: seq<string>, c: seq<string>)
    ensures a != [] && Guard(token, role, a) == RenderPage ==> Guard(token, role, a + b) == RenderPage
    ensures (b != [] && c != [] && SignedIn(token) && Guard(token, role, b) != RenderPage
             && Guard(token, role, c) != RenderPage) ==> Guard(token, role, b) == Guard(token, role, c)
  {
    if a != [] && Guard(token, role, a) == RenderPage {
      assert role.value in a + b;
    }
  }

  /** A page that lists only doctors sends a signed-in patient to the patient dashboard, and a
      page that lists only patients sends a signed-in doctor to the doctor search. */
  lemma RolesSentHome(token: Option<string>)
    requires SignedIn(token)
    ensures Guard(token, Some("patient"), ["doctor"]) == ToDashboard
    ensures Guard(token, Some("doctor"), ["patient"]) == ToDoctorSearch
    ensures Guard(token, None, ["patient"]) == ToHome
  {
  }
}
