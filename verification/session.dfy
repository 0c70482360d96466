/**
 * Who is using the board, as read from the dashboard route's query
 * parameters (`role`, `name`, `area`) when the board starts.
 */
module SessionState {
  import opened Wrappers
  import opened Text
  import opened Tasks

  const WORKER_ROLE: string := "worker"
  const ADMIN_ROLE: string := "admin"
  const DEFAULT_WORKER_NAME: string := "Trabajador"

  /** The query parameters; an absent parameter is None. */
  datatype QueryParams = QueryParams(role: Option<string>, name: Option<string>, area: Option<string>)

  datatype Session = Session(isLoggedIn: bool, userRole: Option<string>, userName: string, userArea: string)

  /** The session before any parameters are read. */
  const InitialSession: Session := Session(false, None, "", INGENIERIA)

  /** A JavaScript string parameter is truthy when present and not empty. */
  predicate Truthy(p: Option<string>) {
    p.Some? && p.value != ""
  }

  /** `p || fallback` on a string parameter. */
  function OrElse(p: Option<string>, fallback: string): (r: string)
    ensures Truthy(p) ==> r == p.value
    ensures !Truthy(p) ==> r == fallback
  {
    if Truthy(p) then p.value else fallback
  }

  /** The session after an event, and whether the user is sent to the login page. */
  datatype SessionOutcome = SessionOutcome(session: Session, redirectToLogin: bool)

  /**
   * The handler of the query parameters. A role logs the user in with that
   * role; a worker also takes the name and area given, defaulting to
   * "Trabajador" and "INGENIERÍA". Without a role the session is unchanged,
   * and a visit to the dashboard URL is sent to the login page.
   */
  function OnQueryParams(s: Session, params: QueryParams, url: string): (r: SessionOutcome)
    ensures Truthy(params.role) ==> r.session.isLoggedIn && r.session.userRole == params.role && !r.redirectToLogin
    ensures Truthy(params.role) && params.role.value == WORKER_ROLE ==>
              && r.session.userName == (if Truthy(params.name) then params.name.value else DEFAULT_WORKER_NAME)
              && r.session.userArea == (if Truthy(params.area) then params.area.value else INGENIERIA)
    ensures Truthy(params.role) && params.role.value != WORKER_ROLE ==>
              r.session.userName == s.userName && r.session.userArea == s.userArea
    ensures !Truthy(params.role) ==> r.session == s && (r.redirectToLogin <==> Contains(url, "/dashboard"))
  {
    if Truthy(params.role) then
      var loggedIn := s.(isLoggedIn := true, userRole := params.role);
      if params.role.value == WORKER_ROLE then
        SessionOutcome(loggedIn.(userName := OrElse(params.name, DEFAULT_WORKER_NAME),
                                userArea := OrElse(params.area, INGENIERIA)), false)
      else
        SessionOutcome(loggedIn, false)
    else
      SessionOutcome(s, Contains(url, "/dashboard"))
  }

  /** The URL of the dashboard route always counts as a dashboard visit. */
  lemma DashboardUrlRedirects(s: Session, prefix: string, suffix: string)
    ensures OnQueryParams(s, QueryParams(None, None, None), prefix + "/dashboard" + suffix).redirectToLogin
  {
    var url := prefix + "/dashboard" + suffix;
    assert url[|prefix|..|prefix| + |"/dashboard"|] == "/dashboard";
    ContainsAt(url, "/dashboard", |prefix|);
  }

  /** `logout`: the user is no longer logged in, has no role, and is sent to the login page; name and area are kept. */
  function Logout(s: Session): (r: SessionOutcome)
    ensures !r.session.isLoggedIn && r.session.userRole == None && r.redirectToLogin
    ensures r.session.userName == s.userName && r.session.userArea == s.userArea
  {
    SessionOutcome(s.(isLoggedIn := false, userRole := None), true)
  }

  /** Logging out and reading the same role again logs the user back in as before. */
  lemma LogoutThenParams(s: Session, params: QueryParams, url: string)
    requires Truthy(params.role)
    ensures OnQueryParams(Logout(s).session, params, url).session == OnQueryParams(s, params, url).session
  {
  }
}
