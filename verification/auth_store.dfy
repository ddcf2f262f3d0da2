/** The `auth_prefs` key-value store of the session: whether a user is logged in, which one, the
    "remember me" choice and the last email remembered. */
module AuthStore {
  import opened Wrappers

  /** The preference map, one optional slot per typed key: `logged_in`, `user_id`, `remember_me`
      and `last_email`. A `None` slot is a key the map does not hold. */
  datatype Prefs = Prefs(
    loggedIn: Option<bool>,
    userId: Option<int>,
    rememberMe: Option<bool>,
    lastEmail: Option<string>)

  datatype AuthState = AuthState(isLoggedIn: bool, userId: Option<int>)

  /** A store nothing has been written to. */
  function Empty(): Prefs {
    Prefs(None, None, None, None)
  }

  /** `state`: logged in only when the flag was written as true. */
  function State(p: Prefs): (r: AuthState)
    ensures r.isLoggedIn <==> p.loggedIn == Some(true)
    ensures r.userId == p.userId
  {
    AuthState(p.loggedIn.GetOr(false), p.userId)
  }

  /** `lastEmail`. */
  function LastEmail(p: Prefs): Option<string> {
    p.lastEmail
  }

  /** `rememberPref`: false unless the choice was written as true. */
  function RememberPref(p: Prefs): (r: bool)
    ensures r <==> p.rememberMe == Some(true)
  {
    p.rememberMe.GetOr(false)
  }

  /** An empty store reads as logged out, with no user, no remembered email and "remember me" off. */
  lemma EmptyProjections()
    ensures State(Empty()) == AuthState(false, None)
    ensures !RememberPref(Empty())
    ensures LastEmail(Empty()).None?
  {
  }

  /** `setLoggedIn`: logged in as `userId`, the remember choice saved, and the email kept exactly
      when it is to be remembered. */
  function SetLoggedIn(p: Prefs, userId: int, email: string, remember: bool): (r: Prefs)
    ensures State(r) == AuthState(true, Some(userId))
    ensures RememberPref(r) == remember
    ensures remember ==> LastEmail(r) == Some(email)
    ensures !remember ==> LastEmail(r).None?
  {
    Prefs(Some(true), Some(userId), Some(remember), if remember then Some(email) else None)
  }

  /** `clear`: logged out and the user id removed; the remember choice and the email stay. */
  function Clear(p: Prefs): (r: Prefs)
    ensures State(r) == AuthState(false, None)
    ensures r.rememberMe == p.rememberMe && r.lastEmail == p.lastEmail
  {
    p.(loggedIn := Some(false), userId := None)
  }

  /** `onAppLaunch`: every launch starts logged out, keeping the remembered email. */
  function OnAppLaunch(p: Prefs): (r: Prefs)
    ensures !State(r).isLoggedIn && State(r).userId.None?
    ensures RememberPref(r) == RememberPref(p) && LastEmail(r) == LastEmail(p)
  {
    Prefs(Some(false), None, p.rememberMe, p.lastEmail)
  }

  /** A launch has exactly the effect of `clear`. */
  lemma OnAppLaunchIsClear(p: Prefs)
    ensures OnAppLaunch(p) == Clear(p)
  {
  }

  lemma ClearIdempotent(p: Prefs)
    ensures Clear(Clear(p)) == Clear(p)
  {
  }

  /** Logging in and then out leaves the session closed, the remember choice as given, and the
      email offered again at the next login exactly when it was to be remembered. */
  lemma LoginThenClear(p: Prefs, userId: int, email: string, remember: bool)
    ensures var q := Clear(SetLoggedIn(p, userId, email, remember));
      && State(q) == AuthState(false, None)
      && RememberPref(q) == remember
      && (LastEmail(q) == Some(email) <==> remember)
  {
  }
}
