/**
 The admin login screen: two text fields, a Login button guarded by both being
 non-empty, a fixed credential check, and a "Login Failed" alert. Navigating to
 and back from the dashboard is left out.
 */
module AdminLogin {
  const AdminUsername := "admin"
  const AdminPassword := "admin123"

  datatype LoginState = LoginState(username: string, password: string, showingAlert: bool, isLoggedIn: bool)

  /** The screen as it opens. */
  const InitialLogin: LoginState := LoginState("", "", false, false)

  /**
   The Login button is disabled while either field is empty: so on the opening
   screen, but never when the accepted pair is typed.
   */
  predicate LoginDisabled(s: LoginState): (r: bool)
    ensures s == InitialLogin ==> r
    ensures CorrectCredentials(s) ==> !r
  {
    s.username == "" || s.password == ""
  }

  /** The one accepted pair, compared exactly (so case-sensitively). */
  predicate CorrectCredentials(s: LoginState) {
    s.username == AdminUsername && s.password == AdminPassword
  }

  /**
   `login`: the accepted pair sets `isLoggedIn`, anything else raises the alert.
   Neither branch clears the other flag, and the typed fields are kept.
   */
  function Login(s: LoginState): (r: LoginState)
    ensures r.username == s.username && r.password == s.password
    ensures r.isLoggedIn <==> s.isLoggedIn || (s.username == "admin" && s.password == "admin123")
    ensures r.showingAlert <==> s.showingAlert || !(s.username == "admin" && s.password == "admin123")
  {
    if CorrectCredentials(s) then s.(isLoggedIn := true)
    else s.(showingAlert := true)
  }

  /** One user interaction with the screen. */
  datatype LoginEvent =
    | TypeUsername(text: string)
    | TypePassword(text: string)
    | PressLogin
    | DismissAlert

  /** An interaction; pressing a disabled Login button does nothing. */
  function Step(s: LoginState, e: LoginEvent): LoginState {
    match e
    case TypeUsername(t) => s.(username := t)
    case TypePassword(t) => s.(password := t)
    case PressLogin => if LoginDisabled(s) then s else Login(s)
    case DismissAlert => s.(showingAlert := false)
  }

  /** The state after a run of interactions from the opening screen. */
  function Run(events: seq<LoginEvent>): LoginState
    decreases |events|
  {
    if |events| == 0 then InitialLogin
    else Step(Run(events[..|events| - 1]), events[|events| - 1])
  }

  /**
   Only the fixed pair opens the dashboard: whenever a run ends logged in, Login
   was pressed at some point while the fields held exactly "admin" and "admin123".
   */
  lemma {:induction false} LoggedInOnlyWithCredentials(events: seq<LoginEvent>)
    requires Run(events).isLoggedIn
    ensures exists k :: 0 <= k < |events| && events[k] == PressLogin && CorrectCredentials(Run(events[..k]))
    decreases |events|
  {
    var n := |events| - 1;
    var before := events[..n];
    assert before == events[..|events| - 1];
    if Run(before).isLoggedIn {
      LoggedInOnlyWithCredentials(before);
      var k :| 0 <= k < |before| && before[k] == PressLogin && CorrectCredentials(Run(before[..k]));
      assert before[..k] == events[..k];
    } else {
      assert events[n] == PressLogin && CorrectCredentials(Run(before));
    }
  }

  /** Typing the accepted pair and pressing Login logs in, from any state. */
  lemma CredentialsLogIn(s: LoginState)
    ensures Step(Step(Step(s, TypeUsername("admin")), TypePassword("admin123")), PressLogin).isLoggedIn
  {
  }

  /** The check is case-sensitive: "Admin" is refused and raises the alert. */
  lemma WrongCaseRefused(s: LoginState)
    requires !s.isLoggedIn
    ensures var r := Login(s.(username := "Admin", password := "admin123"));
      !r.isLoggedIn && r.showingAlert
  {
    assert "Admin"[0] != "admin"[0];
  }
}
