/**
  The page that switches between the three views (src/pages/Index.tsx): `currentView`,
  `isAdminAuthenticated`, the handlers that change them and the rule that picks what
  is rendered.
 */
module Router {

  datatype View = Terms | AdminLogin | AdminDashboard

  /** The component the page renders. */
  datatype Page = TermsPage | LoginPage | DashboardPage

  datatype Session = Session(currentView: View, isAdminAuthenticated: bool)

  /** Every load starts on the terms form, not authenticated. */
  const Initial: Session := Session(Terms, false)

  /** The four ways the page's state changes: the ADMIN button, the login form's back
      callback, the login form's `onLogin(success)` and the dashboard's logout. */
  datatype Event = AdminButton | Back | LoginResult(success: bool) | Logout

  /**
    The render gate: the login view shows the login form; the dashboard is shown only in
    the dashboard view with the flag set; every other state shows the terms form.
   */
  function Render(s: Session): (p: Page)
    ensures p == LoginPage <==> s.currentView == AdminLogin
    ensures p == DashboardPage <==> s.currentView == AdminDashboard && s.isAdminAuthenticated
  {
    if s.currentView == AdminLogin then LoginPage
    else if s.currentView == AdminDashboard && s.isAdminAuthenticated then DashboardPage
    else TermsPage
  }

  /** The handlers, as a function from the state and the event to the next state. */
  function Step(s: Session, e: Event): Session
  {
    match e
    case AdminButton => s.(currentView := AdminLogin)
    case Back => s.(currentView := Terms)
    case LoginResult(success) =>
      if success then Session(AdminDashboard, true) else s
    case Logout => Session(Terms, false)
  }

  /** What each handler changes, and that it changes nothing else. */
  lemma StepEffects(s: Session)
    ensures Step(s, LoginResult(true)) == Session(AdminDashboard, true)
    ensures Step(s, LoginResult(false)) == s
    ensures Step(s, Logout) == Session(Terms, false)
    ensures Step(s, Back) == Session(Terms, s.isAdminAuthenticated)
    ensures Step(s, AdminButton) == Session(AdminLogin, s.isAdminAuthenticated)
  {
  }

  /** The dashboard view is never entered without the flag. */
  ghost predicate Inv(s: Session)
  {
    s.currentView == AdminDashboard ==> s.isAdminAuthenticated
  }

  lemma StepPreservesInv(s: Session, e: Event)
    requires Inv(s)
    ensures Inv(Step(s, e))
  {
  }

  /** The state after a sequence of events, the last one applied last. */
  function Run(s: Session, events: seq<Event>): Session
    decreases |events|
  {
    if events == [] then s else Step(Run(s, events[..|events| - 1]), events[|events| - 1])
  }

  lemma {:induction false} RunPreservesInv(s: Session, events: seq<Event>)
    requires Inv(s)
    ensures Inv(Run(s, events))
    decreases |events|
  {
    if events != [] {
      RunPreservesInv(s, events[..|events| - 1]);
      StepPreservesInv(Run(s, events[..|events| - 1]), events[|events| - 1]);
    }
  }

  /** Some successful login happened and no logout came after it. */
  predicate LoggedInSinceLogout(events: seq<Event>)
  {
    exists i :: 0 <= i < |events| && events[i] == LoginResult(true) &&
      forall j :: i < j < |events| ==> events[j] != Logout
  }

  /**
    Starting from a fresh page, the flag is set exactly when a successful login has
    happened and no logout has happened since.
   */
  lemma {:induction false} AuthenticatedIff(events: seq<Event>)
    ensures Run(Initial, events).isAdminAuthenticated <==> LoggedInSinceLogout(events)
    decreases |events|
  {
    if events != [] {
      var n := |events| - 1;
      var prefix, last := events[..n], events[n];
      AuthenticatedIff(prefix);
      if last == LoginResult(true) {
        assert LoggedInSinceLogout(events) by {
          assert events[n] == LoginResult(true);
        }
      } else if last != Logout {
        if LoggedInSinceLogout(prefix) {
          var i :| 0 <= i < |prefix| && prefix[i] == LoginResult(true) &&
            forall j :: i < j < |prefix| ==> prefix[j] != Logout;
          assert events[i] == LoginResult(true);
          assert forall j :: i < j < |events| ==> events[j] != Logout by {
            forall j | i < j < |events|
              ensures events[j] != Logout
            {
              if j < n {
                assert events[j] == prefix[j];
              }
            }
          }
        }
        if LoggedInSinceLogout(events) {
          var i :| 0 <= i < |events| && events[i] == LoginResult(true) &&
            forall j :: i < j < |events| ==> events[j] != Logout;
          assert i != n;
          assert prefix[i] == LoginResult(true);
          assert forall j :: i < j < |prefix| ==> prefix[j] != Logout by {
            forall j | i < j < |prefix|
              ensures prefix[j] != Logout
            {
              assert prefix[j] == events[j];
            }
          }
          assert LoggedInSinceLogout(prefix);
        }
      }
    }
  }

  /** After a logout the dashboard cannot be shown again without a new successful login. */
  lemma DashboardNeedsLogin(events: seq<Event>)
    requires Render(Run(Initial, events)) == DashboardPage
    ensures LoggedInSinceLogout(events)
  {
    AuthenticatedIff(events);
  }

  /**
    The event the rendered page can raise: the ADMIN button is on the terms page, the
    back callback and `onLogin` belong to the login form, logout to the dashboard.
   */
  predicate Enabled(s: Session, e: Event)
  {
    match e
    case AdminButton => Render(s) == TermsPage
    case Back => Render(s) == LoginPage
    case LoginResult(_) => Render(s) == LoginPage
    case Logout => Render(s) == DashboardPage
  }

  /** Every event of the sequence can be raised from the page it reaches. */
  predicate EnabledRun(s: Session, events: seq<Event>)
    decreases |events|
  {
    events == [] ||
    (EnabledRun(s, events[..|events| - 1]) &&
     Enabled(Run(s, events[..|events| - 1]), events[|events| - 1]))
  }

  /**
    Driven through the UI alone, the flag is set exactly while the dashboard view is
    active, so the dashboard is the page shown whenever the flag is set.
   */
  lemma {:induction false} ReachableAuthenticatedIffDashboard(events: seq<Event>)
    requires EnabledRun(Initial, events)
    ensures var s := Run(Initial, events);
            s.isAdminAuthenticated <==> s.currentView == AdminDashboard
    decreases |events|
  {
    if events != [] {
      ReachableAuthenticatedIffDashboard(events[..|events| - 1]);
    }
  }

  class Index {
    var currentView: View
    var isAdminAuthenticated: bool

    function State(): Session
      reads this
    {
      Session(currentView, isAdminAuthenticated)
    }

    ghost predicate Valid()
      reads this
    {
      Inv(State())
    }

    constructor ()
      ensures Valid()
      ensures State() == Initial
    {
      currentView := Terms;
      isAdminAuthenticated := false;
    }

    /** What the page renders in its current state. */
    function Rendered(): Page
      reads this
    {
      Render(State())
    }

    /** `handleAdminLogin`, the login form's `onLogin`. */
    method HandleAdminLogin(success: bool)
      requires Valid()
      modifies this
      ensures Valid()
      ensures State() == Step(old(State()), LoginResult(success))
    {
      if success {
        isAdminAuthenticated := true;
        currentView := AdminDashboard;
      }
    }

    /** `handleAdminLogout`, the dashboard's `onLogout`. */
    method HandleAdminLogout()
      requires Valid()
      modifies this
      ensures Valid()
      ensures State() == Step(old(State()), Logout)
    {
      isAdminAuthenticated := false;
      currentView := Terms;
    }

    /** The `onBack` callback handed to the login form. */
    method Back()
      requires Valid()
      modifies this
      ensures Valid()
      ensures State() == Step(old(State()), Event.Back)
    {
      currentView := Terms;
    }

    /** The ADMIN button on the terms page. */
    method OpenAdminLogin()
      requires Valid()
      modifies this
      ensures Valid()
      ensures State() == Step(old(State()), AdminButton)
    {
      currentView := AdminLogin;
    }
  }
}
