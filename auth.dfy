/** The web client's session hook: the check that runs whenever the refresh token changes,
    the periodic refresh, and the logout that clears every client store. The router, the
    stores and the account calls are collaborators; what the hook does to them is recorded
    as a sequence of effects. */
module Auth {

  datatype Option<+T> = None | Some(value: T)

  /** The routes the hook names; `Page` is any other path. */
  datatype Route =
    | Login | SignUp | RecoverLookup | RecoverNewPassword | RecoverNotPossible
    | RecoverVerifyEmail | RecoverStatus | RecoverConfirm | Home
    | Page(path: string)

  /** The routes a visitor without a session may stay on. */
  const InitAuthRoutes: set<Route> :=
    {Login, SignUp, RecoverLookup, RecoverNewPassword, RecoverNotPossible,
     RecoverVerifyEmail, RecoverStatus, RecoverConfirm}

  /** The period of the refresh timer, `REFRESH_INTERVAL_MS`; the model takes each tick as
      a call of `Tick` and does not model time, so nothing here reads it. */
  const RefreshIntervalMs := 300000

  /** The client stores the logout clears. */
  datatype Store = Search | Activity | Wallet | Onboard | Recover | Notification | Update | History | Apps | Pusher

  /** What the hook does to its collaborators, in the order it does it. */
  datatype Effect =
    | Clear(store: Store)
    | AccountLogout
    | Refresh
    | Push(route: Route)
    | EnableAccount
    | InitAppSessions(walletAddress: string)

  /** Every effect of one logout, in order: the ten store clears, then the account logout. */
  const LogoutEffects: seq<Effect> :=
    [Clear(Search), Clear(Activity), Clear(Wallet), Clear(Onboard), Clear(Recover),
     Clear(Notification), Clear(Update), Clear(History), Clear(Apps), Clear(Pusher),
     AccountLogout]

  /** The logout clears every store, each exactly once (no effect repeats), and all of
      them before the account logout, which comes last. */
  lemma LogoutClearsEveryStoreFirst()
    ensures |LogoutEffects| == 11 && LogoutEffects[10] == AccountLogout
    ensures forall s: Store :: ClearPosition(s) < 10 && LogoutEffects[ClearPosition(s)] == Clear(s)
    ensures forall i, j :: 0 <= i < j < 11 ==> LogoutEffects[i] != LogoutEffects[j]
    ensures Refresh !in LogoutEffects && forall r :: Push(r) !in LogoutEffects
  {
  }

  /** Where each store's clear sits in the logout. */
  function ClearPosition(s: Store): nat
  {
    match s
    case Search => 0
    case Activity => 1
    case Wallet => 2
    case Onboard => 3
    case Recover => 4
    case Notification => 5
    case Update => 6
    case History => 7
    case Apps => 8
    case Pusher => 9
  }

  /** The session as the account store holds it: the token strings (absent when there is
      no token) and the wallet's address, if a wallet is loaded. */
  datatype Session = Session(accessToken: Option<string>, refreshToken: Option<string>, wallet: Option<string>)

  /** How the environment answers this check: whether the refresh call rejects, whether the
      logout's account call rejects, and whether the second logout of the error handler does. */
  datatype Outcomes = Outcomes(refreshThrows: bool, logoutThrows: bool, retryLogoutThrows: bool)

  predicate IsLoggedOut(s: Session) { s.refreshToken.None? }

  /** `isExpired` is the token library's check, given the token string or undefined. */
  predicate RefreshTokenExpired(s: Session, isExpired: Option<string> -> bool) { isExpired(s.refreshToken) }

  predicate AccessTokenExpired(s: Session, isExpired: Option<string> -> bool) { isExpired(s.accessToken) }

  /** The login page is exempt, and so is every recovery step; the home page and every
      other path need a session. */
  predicate NotOnAuthPage(path: Route): (r: bool)
    ensures r ==> !OnLoginPage(path)
    ensures path == Home || path.Page? ==> r
  {
    path !in InitAuthRoutes
  }

  predicate OnLoginPage(path: Route) { path == Login }

  /** The guard of the timer tick: the tick refreshes only sessions that the session
      check would neither send to the login page nor log out. */
  predicate ShouldRefresh(s: Session, isExpired: Option<string> -> bool): (r: bool)
    ensures r ==> !IsLoggedOut(s) && !RefreshTokenExpired(s, isExpired)
  {
    s.accessToken.Some? && s.refreshToken.Some? && !isExpired(s.refreshToken)
  }

  /** The effects of one session check that starts with `isFirst`, on `path`. */
  function CheckEffects(isFirst: bool, s: Session, path: Route, isExpired: Option<string> -> bool, o: Outcomes)
    : seq<Effect>
  {
    var toLogin := if NotOnAuthPage(path) then [Push(Login)] else [];
    if IsLoggedOut(s) then toLogin
    else if RefreshTokenExpired(s, isExpired) then
      LogoutEffects + (if o.logoutThrows then LogoutEffects else toLogin)
    else if isFirst then
      [Refresh] + (if o.refreshThrows then LogoutEffects else [])
    else if AccessTokenExpired(s, isExpired) && o.refreshThrows then
      [Refresh] + LogoutEffects
    else
      (if AccessTokenExpired(s, isExpired) then [Refresh] else [])
      + (if OnLoginPage(path) then [Push(Home)] else [])
  }

  /** Whatever the inputs, a check pushes LOGIN only off the exempt routes, pushes HOME only
      from LOGIN on a later check, refreshes only with a valid refresh token, and leaves
      enabling the account and the app sessions to the effect that runs it. */
  lemma CheckEffectsStayInBounds(isFirst: bool, s: Session, path: Route, isExpired: Option<string> -> bool,
                                 o: Outcomes)
    ensures var r := CheckEffects(isFirst, s, path, isExpired, o);
      && (Push(Login) in r ==> NotOnAuthPage(path))
      && (Push(Home) in r ==> OnLoginPage(path) && !isFirst)
      && (Refresh in r ==> !IsLoggedOut(s) && !RefreshTokenExpired(s, isExpired))
      && (forall a :: InitAppSessions(a) !in r)
      && EnableAccount !in r
  {
    assert forall x :: x in LogoutEffects ==> x.Clear? || x == AccountLogout;
    var toLogin := if NotOnAuthPage(path) then [Push(Login)] else [];
    var r := CheckEffects(isFirst, s, path, isExpired, o);
    if IsLoggedOut(s) {
      assert r == toLogin;
    } else if RefreshTokenExpired(s, isExpired) {
      assert r == LogoutEffects + (if o.logoutThrows then LogoutEffects else toLogin);
    } else if isFirst {
      assert r == [Refresh] + (if o.refreshThrows then LogoutEffects else []);
    } else if AccessTokenExpired(s, isExpired) && o.refreshThrows {
      assert r == [Refresh] + LogoutEffects;
    }
  }

  /** The value of `isFirst` after one check: it turns false on the first check that
      reaches a valid refresh token. */
  function NextIsFirst(isFirst: bool, s: Session, isExpired: Option<string> -> bool): (r: bool)
    ensures r ==> isFirst
    ensures !IsLoggedOut(s) && !RefreshTokenExpired(s, isExpired) ==> !r
  {
    isFirst && (IsLoggedOut(s) || RefreshTokenExpired(s, isExpired))
  }

  /** Without a refresh token the check only redirects to the login page, and only from a
      page that needs a session. */
  lemma LoggedOutOnlyRedirects(isFirst: bool, s: Session, path: Route, isExpired: Option<string> -> bool, o: Outcomes)
    requires IsLoggedOut(s)
    ensures var e := CheckEffects(isFirst, s, path, isExpired, o);
      && Refresh !in e && AccountLogout !in e
      && (Push(Login) in e <==> NotOnAuthPage(path))
      && |e| <= 1
      && NextIsFirst(isFirst, s, isExpired) == isFirst
  {
  }

  /** With an expired refresh token the logout runs to completion before the redirect to
      the login page; a rejected logout is followed by the error handler's second logout
      and no redirect at all. */
  lemma ExpiredLogsOutBeforeRedirect(isFirst: bool, s: Session, path: Route, isExpired: Option<string> -> bool,
                                     o: Outcomes)
    requires !IsLoggedOut(s) && RefreshTokenExpired(s, isExpired)
    ensures var e := CheckEffects(isFirst, s, path, isExpired, o);
      && e[..11] == LogoutEffects
      && Refresh !in e
      && (Push(Login) in e <==> !o.logoutThrows && NotOnAuthPage(path))
      && (forall i, j :: 0 <= i < |e| && 0 <= j < |e| && e[i] == AccountLogout && e[j] == Push(Login) ==> i < j)
      && (o.logoutThrows ==> e == LogoutEffects + LogoutEffects)
  {
    LogoutClearsEveryStoreFirst();
    var e := CheckEffects(isFirst, s, path, isExpired, o);
    assert e[..11] == LogoutEffects;
    if !o.logoutThrows && NotOnAuthPage(path) {
      assert e == LogoutEffects + [Push(Login)];
      forall i, j | 0 <= i < |e| && 0 <= j < |e| && e[i] == AccountLogout && e[j] == Push(Login)
        ensures i < j
      {
        assert j == 11;
      }
    } else if o.logoutThrows {
      assert Push(Login) !in e[..11] && Push(Login) !in e[11..];
      assert e == e[..11] + e[11..];
    }
  }

  /** The first check with a valid refresh token refreshes exactly once, clears `isFirst`
      and does not redirect. */
  lemma FirstCheckRefreshesOnce(s: Session, path: Route, isExpired: Option<string> -> bool, o: Outcomes)
    requires !IsLoggedOut(s) && !RefreshTokenExpired(s, isExpired)
    ensures var e := CheckEffects(true, s, path, isExpired, o);
      && e[0] == Refresh
      && multiset(e)[Refresh] == 1
      && (forall r :: Push(r) !in e)
      && !NextIsFirst(true, s, isExpired)
  {
    LogoutClearsEveryStoreFirst();
    var e := CheckEffects(true, s, path, isExpired, o);
    assert e == [Refresh] + (if o.refreshThrows then LogoutEffects else []);
  }

  /** A later check refreshes only when the access token has expired and leaves the login
      page for the home page unless that refresh rejected. */
  lemma LaterCheckRefreshesWhenExpired(s: Session, path: Route, isExpired: Option<string> -> bool, o: Outcomes)
    requires !IsLoggedOut(s) && !RefreshTokenExpired(s, isExpired)
    ensures var e := CheckEffects(false, s, path, isExpired, o);
      && (Refresh in e <==> AccessTokenExpired(s, isExpired))
      && (Push(Home) in e <==> OnLoginPage(path) && !(AccessTokenExpired(s, isExpired) && o.refreshThrows))
      && Push(Login) !in e
      && (AccountLogout in e <==> AccessTokenExpired(s, isExpired) && o.refreshThrows)
  {
    LogoutClearsEveryStoreFirst();
  }

  /** The login page is exempt, so no check ever pushes the login page while on it. */
  lemma NoLoginRedirectFromLogin(isFirst: bool, s: Session, isExpired: Option<string> -> bool, o: Outcomes)
    ensures Push(Login) !in CheckEffects(isFirst, s, Login, isExpired, o)
  {
    LogoutClearsEveryStoreFirst();
  }

  /** A rejected refresh always ends in a logout, right after it. */
  lemma FailedRefreshLogsOut(isFirst: bool, s: Session, path: Route, isExpired: Option<string> -> bool, o: Outcomes)
    requires o.refreshThrows
    ensures var e := CheckEffects(isFirst, s, path, isExpired, o);
      Refresh in e ==> e[|e| - 11..] == LogoutEffects
  {
    LogoutClearsEveryStoreFirst();
    var e := CheckEffects(isFirst, s, path, isExpired, o);
    if IsLoggedOut(s) || RefreshTokenExpired(s, isExpired) {
      assert Refresh !in e;
    } else if isFirst || AccessTokenExpired(s, isExpired) {
      assert e == [Refresh] + LogoutEffects;
    } else {
      assert e == if OnLoginPage(path) then [Push(Home)] else [];
    }
  }

  /** The hook's state: the first-check flag and the effects performed so far. */
  class AuthHook {
    var isFirst: bool
    var trace: seq<Effect>

    constructor ()
      ensures isFirst && trace == []
    {
      isFirst := true;
      trace := [];
    }

    /** The closure `useLogout` returns: ten clears, then the account logout, whose
        rejection is passed on as `threw`. */
    method Logout(accountLogoutThrows: bool) returns (threw: bool)
      modifies this`trace
      ensures trace == old(trace) + LogoutEffects
      ensures threw == accountLogoutThrows
    {
      var t := trace;
      t := t + [Clear(Search)];
      t := t + [Clear(Activity)];
      t := t + [Clear(Wallet)];
      t := t + [Clear(Onboard)];
      t := t + [Clear(Recover)];
      t := t + [Clear(Notification)];
      t := t + [Clear(Update)];
      t := t + [Clear(History)];
      t := t + [Clear(Apps)];
      t := t + [Clear(Pusher)];
      t := t + [AccountLogout];
      trace := t;
      threw := accountLogoutThrows;
    }

    /** `authCheck`: one pass of the session check. A rejection of the logout or of the
        refresh is caught and answered with a second logout whose own rejection is dropped. */
    method AuthCheck(s: Session, path: Route, isExpired: Option<string> -> bool, o: Outcomes)
      modifies this
      ensures trace == old(trace) + CheckEffects(old(isFirst), s, path, isExpired, o)
      ensures isFirst == NextIsFirst(old(isFirst), s, isExpired)
      ensures !old(isFirst) ==> !isFirst
    {
      ghost var e := CheckEffects(isFirst, s, path, isExpired, o);
      var failed := false;
      if IsLoggedOut(s) {
        if NotOnAuthPage(path) {
          trace := trace + [Push(Login)];
        }
      } else if RefreshTokenExpired(s, isExpired) {
        failed := Logout(o.logoutThrows);
        if !failed && NotOnAuthPage(path) {
          trace := trace + [Push(Login)];
        }
        assert e == LogoutEffects + (if o.logoutThrows then LogoutEffects else if NotOnAuthPage(path) then [Push(Login)] else []);
      } else if isFirst {
        isFirst := false;
        trace := trace + [Refresh];
        failed := o.refreshThrows;
        assert e == [Refresh] + (if failed then LogoutEffects else []);
      } else {
        if AccessTokenExpired(s, isExpired) {
          trace := trace + [Refresh];
          failed := o.refreshThrows;
        }
        if !failed && OnLoginPage(path) {
          trace := trace + [Push(Home)];
        }
        assert failed ==> e == [Refresh] + LogoutEffects;
      }
      if failed {
        var _ := Logout(o.retryLogoutThrows);
      }
    }

    /** The effect on a refresh-token change: the check, then `enableAccount`, then the app
        sessions when a wallet is loaded. The check never rejects, so both always follow. */
    method OnRefreshTokenChange(s: Session, path: Route, isExpired: Option<string> -> bool, o: Outcomes)
      modifies this
      ensures trace == old(trace) + CheckEffects(old(isFirst), s, path, isExpired, o) + [EnableAccount]
                       + (if s.wallet.Some? then [InitAppSessions(s.wallet.value)] else [])
      ensures isFirst == NextIsFirst(old(isFirst), s, isExpired)
    {
      AuthCheck(s, path, isExpired, o);
      trace := trace + [EnableAccount];
      if s.wallet.Some? {
        trace := trace + [InitAppSessions(s.wallet.value)];
      }
    }

    /** One tick of the refresh timer. */
    method Tick(s: Session, isExpired: Option<string> -> bool)
      modifies this`trace
      ensures trace == old(trace) + (if ShouldRefresh(s, isExpired) then [Refresh] else [])
    {
      if ShouldRefresh(s, isExpired) {
        trace := trace + [Refresh];
      }
    }
  }
}
