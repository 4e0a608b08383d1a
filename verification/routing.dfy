/** The route guards: the root layout's startup check and routing effect, the
    auth and dashboard layouts' redirects, the dashboard's logout button and
    the index redirect. Each effect is a function from the store fields it
    reads to the sequence of `replace` navigations it issues. */
module Routing {
  import opened Common
  import SecureStore
  import AuthApi
  import AuthStore

  /** What the root layout reads as `hasOrganization`: the store has no such
      field, so the destructured value is always `undefined`. */
  function StoreHasOrganization(s: AuthStore.Session): JsValue
  {
    Undefined
  }

  /** The root layout's routing effect. Nothing happens while loading; signed
      out goes to `/login`; signed in, a `null` organization first replaces to
      `/organizationCreate` and then falls through to the `!== false` test,
      which sends everything but `false` to `/panel`. */
  function RootNavigation(isLoading: bool, isAuthenticated: bool, hasOrganization: JsValue): (r: seq<Route>)
    ensures isLoading ==> r == []
    ensures !isLoading ==> 1 <= |r| <= 2
    ensures !isLoading && !isAuthenticated ==> r == [Login]
    ensures |r| == 2 <==> !isLoading && isAuthenticated && hasOrganization == Null
  {
    if isLoading then []
    else if isAuthenticated then
      var first := if hasOrganization == Null then [OrganizationCreate] else [];
      first + (if hasOrganization != Bool(false) then [Panel] else [OrganizationCreate])
    else [Login]
  }

  /** Where the root layout means to send a signed-in user: the organization
      form when the check answered `false`, the panel otherwise. */
  function IntendedDestination(isAuthenticated: bool, hasOrganization: JsValue): Route
  {
    if !isAuthenticated then Login
    else if hasOrganization == Bool(false) then OrganizationCreate
    else Panel
  }

  /** Case by case, the navigations the root layout issues once loading has
      finished. */
  lemma RootNavigationCases(isAuthenticated: bool, hasOrganization: JsValue)
    ensures !isAuthenticated ==> RootNavigation(false, isAuthenticated, hasOrganization) == [Login]
    ensures isAuthenticated && hasOrganization == Bool(false) ==>
              RootNavigation(false, isAuthenticated, hasOrganization) == [OrganizationCreate]
    ensures isAuthenticated && hasOrganization == Null ==>
              RootNavigation(false, isAuthenticated, hasOrganization) == [OrganizationCreate, Panel]
    ensures isAuthenticated && hasOrganization != Null && hasOrganization != Bool(false) ==>
              RootNavigation(false, isAuthenticated, hasOrganization) == [Panel]
  {
  }

  /** The last navigation is always the intended destination; the double
      `replace` for a `null` organization ends on `/panel`. */
  lemma RootNavigationEndsAtDestination(isAuthenticated: bool, hasOrganization: JsValue)
    ensures var r := RootNavigation(false, isAuthenticated, hasOrganization);
            r[|r| - 1] == IntendedDestination(isAuthenticated, hasOrganization)
  {
  }

  /** The root layout over the real store: it never reaches the organization
      form, since `hasOrganization` is always `undefined`. */
  function RootLayout(s: AuthStore.Session): (r: seq<Route>)
    ensures s.isLoading ==> r == []
    ensures !s.isLoading ==> r == [IntendedDestination(s.isAuthenticated, Undefined)]
    ensures OrganizationCreate !in r
  {
    RootNavigation(s.isLoading, s.isAuthenticated, StoreHasOrganization(s))
  }

  /** An effect with a dependency list runs on mount and whenever a
      dependency differs from the previous render's. */
  predicate EffectRuns<T(==)>(previous: Option<T>, current: T)
  {
    previous.None? || previous.value != current
  }

  /** The root effect's dependencies: `isAuthenticated`, `hasOrganization`,
      `isLoading` (the router object is stable). */
  datatype RootDeps = RootDeps(isAuthenticated: bool, hasOrganization: JsValue, isLoading: bool)

  function RootEffect(previous: Option<RootDeps>, current: RootDeps): (r: seq<Route>)
    ensures previous == Some(current) ==> r == []
    ensures previous != Some(current) ==> r == RootNavigation(current.isLoading, current.isAuthenticated, current.hasOrganization)
  {
    if EffectRuns(previous, current) then RootNavigation(current.isLoading, current.isAuthenticated, current.hasOrganization) else []
  }

  function DepsOf(s: AuthStore.Session): RootDeps
  {
    RootDeps(s.isAuthenticated, StoreHasOrganization(s), s.isLoading)
  }

  /** App start: the root layout mounts on the initial store, calls
      `checkAuth` once, and its effect runs on the initial render and again
      when `checkAuth` has settled. The first run sees `isLoading` and does
      nothing, so only the settled state routes. */
  function Startup(store: SecureStore.Store, readFails: bool, verify: AuthApi.Server<AuthApi.VerifyBody>): (r: seq<Route>)
  {
    var settled := AuthStore.CheckAuth(AuthStore.Initial, store, readFails, verify).session;
    RootEffect(None, DepsOf(AuthStore.Initial)) + RootEffect(Some(DepsOf(AuthStore.Initial)), DepsOf(settled))
  }

  /** Startup issues exactly one navigation, decided by `checkAuth`: the
      panel when it returned true, the login screen otherwise. */
  lemma StartupRoutesOnce(store: SecureStore.Store, readFails: bool, verify: AuthApi.Server<AuthApi.VerifyBody>)
    ensures var ok := AuthStore.CheckAuth(AuthStore.Initial, store, readFails, verify).completion.value;
            Startup(store, readFails, verify) == (if ok then [Panel] else [Login])
  {
    var settled := AuthStore.CheckAuth(AuthStore.Initial, store, readFails, verify).session;
    assert RootEffect(None, DepsOf(AuthStore.Initial)) == [];
    assert DepsOf(settled) != DepsOf(AuthStore.Initial);
  }

  /** While `checkAuth` is in flight the store is loading, and the root
      layout issues nothing. */
  lemma NoNavigationWhileChecking(s: AuthStore.Session)
    ensures RootLayout(s.(isLoading := true)) == []
  {
  }

  // ---- app/auth/_layout.tsx ----

  /** The auth layout's guard: a signed-in user is sent to the dashboard. It
      reads `isAuthenticated` only. */
  function AuthGuard(isAuthenticated: bool): (r: seq<Route>)
    ensures isAuthenticated <==> r == [DashboardPanel]
    ensures !isAuthenticated <==> r == []
  {
    if isAuthenticated then [DashboardPanel] else []
  }

  /** The guard's effect depends on `isAuthenticated` alone. */
  function AuthLayoutEffect(previous: Option<bool>, s: AuthStore.Session): (r: seq<Route>)
    ensures previous == Some(s.isAuthenticated) ==> r == []
    ensures previous != Some(s.isAuthenticated) ==> r == AuthGuard(s.isAuthenticated)
  {
    if EffectRuns(previous, s.isAuthenticated) then AuthGuard(s.isAuthenticated) else []
  }

  /** Two sessions that agree on `isAuthenticated` get the same navigations
      from the auth layout, whatever their `isLoading` or user. */
  lemma AuthLayoutReadsOnlyAuthentication(previous: Option<bool>, s1: AuthStore.Session, s2: AuthStore.Session)
    requires s1.isAuthenticated == s2.isAuthenticated
    ensures AuthLayoutEffect(previous, s1) == AuthLayoutEffect(previous, s2)
  {
  }

  // ---- app/dashboard/_layout.tsx ----

  /** The dashboard layout's guard: a signed-out user is sent to login. */
  function DashboardGuard(isAuthenticated: bool): (r: seq<Route>)
    ensures !isAuthenticated <==> r == [AuthLogin]
    ensures isAuthenticated <==> r == []
  {
    if isAuthenticated then [] else [AuthLogin]
  }

  function DashboardLayoutEffect(previous: Option<bool>, s: AuthStore.Session): (r: seq<Route>)
    ensures previous == Some(s.isAuthenticated) ==> r == []
    ensures previous != Some(s.isAuthenticated) ==> r == DashboardGuard(s.isAuthenticated)
  {
    if EffectRuns(previous, s.isAuthenticated) then DashboardGuard(s.isAuthenticated) else []
  }

  /** The logout button's outcome: the store step and the navigations. */
  datatype LogoutPress = LogoutPress(step: AuthStore.Step<()>, navigation: seq<Route>)

  /** `handleLogout`: awaits the store's `logout` and only then replaces to
      the login screen; a rejected logout escapes before navigating. */
  function HandleLogout(s: AuthStore.Session, store: SecureStore.Store, fault: AuthApi.DeleteFault): (r: LogoutPress)
    ensures r.step == AuthStore.Logout(s, store, fault)
    ensures fault == AuthApi.NoFault ==> r.navigation == [AuthLogin] && !r.step.session.isAuthenticated
    ensures fault != AuthApi.NoFault ==> r.navigation == [] && r.step.session == s
  {
    var step := AuthStore.Logout(s, store, fault);
    match step.completion
    case Returned(_) => LogoutPress(step, [AuthLogin])
    case Threw(_) => LogoutPress(step, [])
  }

  /** After a successful logout the dashboard guard agrees with the button:
      both send the user to the login screen. */
  lemma LogoutThenGuardAgree(s: AuthStore.Session, store: SecureStore.Store)
    requires s.isAuthenticated
    ensures var press := HandleLogout(s, store, AuthApi.NoFault);
            DashboardLayoutEffect(Some(s.isAuthenticated), press.step.session) == press.navigation
  {
  }

  // ---- app/index.tsx ----

  /** The index screen renders exactly one redirect, chosen by
      `isAuthenticated` alone. */
  function IndexRedirect(s: AuthStore.Session): (r: Route)
    ensures r == DashboardPanel <==> s.isAuthenticated
    ensures r == AuthLogin <==> !s.isAuthenticated
  {
    if s.isAuthenticated then DashboardPanel else AuthLogin
  }

  /** The index redirect and the auth layout agree: a signed-in user landing
      on either is sent to the dashboard panel. */
  lemma IndexAgreesWithAuthLayout(s: AuthStore.Session)
    requires s.isAuthenticated
    ensures AuthLayoutEffect(None, s) == [IndexRedirect(s)]
  {
  }
}
