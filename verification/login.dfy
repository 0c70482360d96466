/**
 * The login page: a decision from the submitted user name and password to
 * what the page does, checked against the page's fixed credentials.
 */
module Login {
  import opened Wrappers
  import opened Tasks
  import opened SessionState

  const ADMIN_USER: string := "admin"
  const WORKER_USER: string := "juan"
  const PASSWORD: string := "123"

  const WRONG_PASSWORD: string := "Contraseña incorrecta."
  const UNKNOWN_USER: string := "Usuario no encontrado."
  const DASHBOARD: string := "/dashboard"

  /** What a submission does: nothing, show an error message, or navigate with query parameters. */
  datatype LoginOutcome = NoAction | ShowError(message: string) | Navigate(path: string, params: QueryParams)

  /** Both controls are required: an empty field makes the form invalid. */
  predicate LoginFormValid(username: string, password: string) {
    username != "" && password != ""
  }

  /**
   * `onSubmit`. An invalid form does nothing. Otherwise the password is checked
   * first, then the user name: the administrator and the one worker go to the
   * dashboard, anyone else gets an error.
   */
  function Submit(username: string, password: string): (r: LoginOutcome)
    ensures !LoginFormValid(username, password) <==> r == NoAction
    ensures LoginFormValid(username, password) && password != PASSWORD ==> r == ShowError(WRONG_PASSWORD)
    ensures r.Navigate? ==> r.path == DASHBOARD && password == PASSWORD
  {
    if !LoginFormValid(username, password) then NoAction
    else if password != PASSWORD then ShowError(WRONG_PASSWORD)
    else if username == ADMIN_USER then Navigate(DASHBOARD, QueryParams(Some(ADMIN_ROLE), None, None))
    else if username == WORKER_USER then Navigate(DASHBOARD, QueryParams(Some(WORKER_ROLE), Some("Juan García"), Some(INGENIERIA)))
    else ShowError(UNKNOWN_USER)
  }

  /** With the right password, the user name decides: admin, the worker Juan, or an unknown user. */
  lemma SubmitWithPassword(username: string)
    requires username != ""
    ensures username == ADMIN_USER ==> Submit(username, PASSWORD) == Navigate(DASHBOARD, QueryParams(Some(ADMIN_ROLE), None, None))
    ensures username == WORKER_USER ==>
              Submit(username, PASSWORD) == Navigate(DASHBOARD, QueryParams(Some(WORKER_ROLE), Some("Juan García"), Some(INGENIERIA)))
    ensures username != ADMIN_USER && username != WORKER_USER ==> Submit(username, PASSWORD) == ShowError(UNKNOWN_USER)
  {
  }

  /** Every valid submission has exactly one effect: an error or a navigation, never both, never neither. */
  lemma ValidSubmitHasOneEffect(username: string, password: string)
    requires LoginFormValid(username, password)
    ensures Submit(username, password).ShowError? != Submit(username, password).Navigate?
  {
  }

  /**
   * Following a successful login into the dashboard yields the intended
   * session: the administrator is logged in with role "admin", and Juan is a
   * logged-in worker named "Juan García" in INGENIERÍA.
   */
  lemma LoginEstablishesSession(username: string, url: string)
    requires Submit(username, PASSWORD).Navigate?
    ensures var s := OnQueryParams(InitialSession, Submit(username, PASSWORD).params, url).session;
            && s.isLoggedIn
            && (username == ADMIN_USER ==> s.userRole == Some(ADMIN_ROLE))
            && (username == WORKER_USER ==>
                  s.userRole == Some(WORKER_ROLE) && s.userName == "Juan García" && s.userArea == INGENIERIA)
  {
  }
}
