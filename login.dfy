/**
  The owner's login form: the entered password is compared with the one the
  store holds; a match sets the per-user session flag and moves to the
  editor, anything else shows an error.
*/
module AdminLogin {
  import opened Entities

  datatype LoginOutcome = LoggedIn | InvalidPassword | LoginError

  /** The outcome of one attempt, given the answer of the password lookup. */
  function DecideLogin(entered: string, stored: Fetched<string>): (r: LoginOutcome)
    ensures r == LoggedIn <==> stored == Found(entered)
    ensures r == LoginError <==> stored.FetchError?
    ensures r == InvalidPassword <==> stored.Found? && stored.value != entered
  {
    match stored
    case FetchError => LoginError
    case Found(p) => if p == entered then LoggedIn else InvalidPassword
  }

  /** The message shown for an outcome; empty when the login succeeds. */
  function ErrorMessage(o: LoginOutcome): (m: string)
    ensures m == "" <==> o == LoggedIn
  {
    match o
    case LoggedIn => ""
    case InvalidPassword => "Invalid password"
    case LoginError => "Error logging in. Please try again."
  }

  function SessionKey(username: string): string
  {
    "admin_" + username
  }

  function DashboardRoute(username: string): string
  {
    "/" + username + "/admin/dashboard"
  }

  /** Distinct users have distinct session flags. */
  lemma SessionKeysDistinct(u1: string, u2: string)
    requires u1 != u2
    ensures SessionKey(u1) != SessionKey(u2)
  {
    assert SessionKey(u1)[6..] == u1 && SessionKey(u2)[6..] == u2;
  }

  class LoginPage {
    const username: string
    var password: string
    var error: string
    var loading: bool
    /** The browser's session storage. */
    var session: map<string, string>
    /** The route navigated to, if any. */
    var route: Option<string>

    constructor (username: string, session: map<string, string>)
      ensures this.username == username && this.session == session
      ensures password == "" && error == "" && !loading && route == None
    {
      this.username := username;
      this.session := session;
      password := "";
      error := "";
      loading := false;
      route := None;
    }

    method EnterPassword(p: string)
      modifies this`password
      ensures password == p
    {
      password := p;
    }

    /** The part of an attempt before the lookup is awaited: the old error is
        cleared and the form is marked busy. */
    method BeginAttempt()
      modifies this`error, this`loading
      ensures error == "" && loading
    {
      error := "";
      loading := true;
    }

    /** The part after the lookup answered `stored`: on a match the session
        flag is set and the editor opened, otherwise the error is shown; in
        every case the form is no longer busy. */
    method FinishAttempt(stored: Fetched<string>)
      modifies this`error, this`loading, this`session, this`route
      ensures !loading
      ensures var o := DecideLogin(password, stored);
              && error == (if o == LoggedIn then old(error) else ErrorMessage(o))
              && session == (if o == LoggedIn then old(session)[SessionKey(username) := "true"] else old(session))
              && route == (if o == LoggedIn then Some(DashboardRoute(username)) else old(route))
    {
      match stored {
        case FetchError =>
          error := "Error logging in. Please try again.";
        case Found(p) =>
          if p == password {
            session := session[SessionKey(username) := "true"];
            route := Some(DashboardRoute(username));
          } else {
            error := "Invalid password";
          }
      }
      loading := false;
    }

    /** A whole attempt. The ghost out-parameters record the form's state while
        the lookup is outstanding. */
    method HandleLogin(stored: Fetched<string>) returns (ghost errorWhileWaiting: string, ghost loadingWhileWaiting: bool)
      modifies this`error, this`loading, this`session, this`route
      ensures errorWhileWaiting == "" && loadingWhileWaiting
      ensures !loading
      ensures var o := DecideLogin(password, stored);
              && error == ErrorMessage(o)
              && (SessionKey(username) in session && session[SessionKey(username)] == "true" <==>
                    o == LoggedIn || (SessionKey(username) in old(session) && old(session)[SessionKey(username)] == "true"))
              && session == (if o == LoggedIn then old(session)[SessionKey(username) := "true"] else old(session))
              && route == (if o == LoggedIn then Some(DashboardRoute(username)) else old(route))
    {
      BeginAttempt();
      errorWhileWaiting, loadingWhileWaiting := error, loading;
      FinishAttempt(stored);
    }
  }
}
