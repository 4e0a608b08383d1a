/** The process-wide session store: `{user, isAuthenticated, isLoading}` and
    the four actions that change it, `login`, `register`, `logout` and
    `checkAuth`. The store has no `hasOrganization` field. */
module AuthStore {
  import opened Common
  import SecureStore
  import AuthApi

  type Store = SecureStore.Store

  datatype Session = Session(user: Option<User>, isAuthenticated: bool, isLoading: bool)

  /** The state the store is created with: no user, not authenticated, and
      loading until the first `checkAuth` finishes. */
  const Initial: Session := Session(None, false, true)

  /** The state every failed authentication check leaves behind. */
  const SignedOut: Session := Session(None, false, false)

  /** An awaited store action: the session and token store afterwards and
      how the action ended. */
  datatype Step<+T> = Step(session: Session, store: Store, completion: Completion<T, AuthApi.Failure>)

  /** No user is held while signed out. */
  predicate Consistent(s: Session)
  {
    !s.isAuthenticated ==> s.user.None?
  }

  /** `login`: `authApi.login` stores the tokens, the store writes them once
      more and only then records the user as authenticated. A rejection is
      rethrown with the session unchanged. `isLoading` is never touched. */
  function Login(s: Session, store: Store, server: AuthApi.Server<AuthApi.LoginBody>): (r: Step<()>)
    ensures r.session.isLoading == s.isLoading
    ensures r.completion.Threw? ==> r.session == s
    ensures var post := AuthApi.Post(AuthApi.LoginPath, store, server).completion;
            r.completion.Returned? <==> post.Returned? && post.value.access.Some? && post.value.refresh.Some?
    ensures var post := AuthApi.Post(AuthApi.LoginPath, store, server).completion;
            r.completion.Returned? ==>
              && r.session == s.(user := post.value.user, isAuthenticated := true)
              && SecureStore.Get(r.store, SecureStore.AccessKey) == post.value.access
              && SecureStore.Get(r.store, SecureStore.RefreshKey) == post.value.refresh
  {
    var api := AuthApi.Login(store, server);
    match api.completion
    case Threw(f) => Step(s, api.store, Threw(f))
    case Returned(data) =>
      var again := AuthApi.SaveBoth(api.store, Some(data.tokens.access), Some(data.tokens.refresh));
      Step(s.(user := data.user, isAuthenticated := true), again.store, Returned(()))
  }

  /** `data.accessToken` of what `authApi.register` returned: the login-shaped
      result has no such field. */
  function AccessTokenField(d: AuthApi.Registered): Option<string>
  {
    match d
    case WithTokens(_) => None
    case Raw(b) => b.accessToken
  }

  /** `data.refreshToken`, likewise. */
  function RefreshTokenField(d: AuthApi.Registered): Option<string>
  {
    match d
    case WithTokens(_) => None
    case Raw(b) => b.refreshToken
  }

  /** `data.user`. */
  function UserField(d: AuthApi.Registered): Option<User>
  {
    match d
    case WithTokens(sess) => sess.user
    case Raw(b) => b.user
  }

  /** `register` as written: it stores `data.accessToken` and
      `data.refreshToken`, which the secure store rejects when absent, and
      then records the user as authenticated. Those fields exist only on a
      raw response, one without `access`/`refresh`. Any rejection is
      rethrown with the session unchanged; `isLoading` is never touched. */
  function Register(s: Session, store: Store, server: AuthApi.Server<AuthApi.RegisterBody>): (r: Step<()>)
    ensures r.session.isLoading == s.isLoading
    ensures r.completion.Threw? ==> r.session == s
    ensures var post := AuthApi.Post(AuthApi.RegisterPath, store, server).completion;
            r.completion.Returned? <==>
              && post.Returned? && !AuthApi.CarriesTokens(post.value)
              && post.value.accessToken.Some? && post.value.refreshToken.Some?
    ensures var post := AuthApi.Post(AuthApi.RegisterPath, store, server).completion;
            r.completion.Returned? ==>
              && r.session == s.(user := post.value.user, isAuthenticated := true)
              && SecureStore.Get(r.store, SecureStore.AccessKey) == post.value.accessToken
              && SecureStore.Get(r.store, SecureStore.RefreshKey) == post.value.refreshToken
  {
    var api := AuthApi.Register(store, server);
    match api.completion
    case Threw(f) => Step(s, api.store, Threw(f))
    case Returned(data) =>
      var saved := AuthApi.SaveBoth(api.store, AccessTokenField(data), RefreshTokenField(data));
      match saved.completion
      case Threw(f) => Step(s, saved.store, Threw(f))
      case Returned(_) => Step(s.(user := UserField(data), isAuthenticated := true), saved.store, Returned(()))
  }

  /** The discrepancy in `register` as written: when the backend issues
      tokens as `access`/`refresh`, the form `authApi.register` itself
      recognises, the tokens get stored but the store rethrows and never
      becomes authenticated. */
  lemma RegisterDropsIssuedTokens(s: Session, store: Store, server: AuthApi.Server<AuthApi.RegisterBody>, body: AuthApi.RegisterBody)
    requires AuthApi.Post(AuthApi.RegisterPath, store, server).completion == Returned(body)
    requires AuthApi.CarriesTokens(body)
    ensures var r := Register(s, store, server);
            && r.completion == Threw(AuthApi.Storage)
            && r.session == s
            && SecureStore.Get(r.store, SecureStore.AccessKey) == body.access
            && SecureStore.Get(r.store, SecureStore.RefreshKey) == body.refresh
  {
  }

  /** `register` reading the tokens where `authApi.register` puts them,
      `data.tokens.access` and `data.tokens.refresh`, as `login` does. A
      result without tokens has no `tokens` field, so reading
      `data.tokens.access` throws a `TypeError`. */
  function RegisterCorrected(s: Session, store: Store, server: AuthApi.Server<AuthApi.RegisterBody>): (r: Step<()>)
    ensures r.session.isLoading == s.isLoading
    ensures r.completion.Threw? ==> r.session == s
    ensures var post := AuthApi.Post(AuthApi.RegisterPath, store, server).completion;
            r.completion.Returned? <==> post.Returned? && AuthApi.CarriesTokens(post.value)
    ensures var post := AuthApi.Post(AuthApi.RegisterPath, store, server);
            post.completion.Returned? && !AuthApi.CarriesTokens(post.completion.value) ==>
              r == Step(s, post.store, Threw(AuthApi.TypeError))
    ensures var post := AuthApi.Post(AuthApi.RegisterPath, store, server).completion;
            r.completion.Returned? ==>
              && r.session == s.(user := post.value.user, isAuthenticated := true)
              && SecureStore.Get(r.store, SecureStore.AccessKey) == post.value.access
              && SecureStore.Get(r.store, SecureStore.RefreshKey) == post.value.refresh
  {
    var api := AuthApi.Register(store, server);
    match api.completion
    case Threw(f) => Step(s, api.store, Threw(f))
    case Returned(WithTokens(sess)) =>
      var again := AuthApi.SaveBoth(api.store, Some(sess.tokens.access), Some(sess.tokens.refresh));
      Step(s.(user := sess.user, isAuthenticated := true), again.store, Returned(()))
    case Returned(Raw(_)) => Step(s, api.store, Threw(AuthApi.TypeError))
  }

  /** `logout`: the session is cleared only after `authApi.logout` resolves;
      if it rejects, the session is unchanged. `isLoading` is never touched. */
  function Logout(s: Session, store: Store, fault: AuthApi.DeleteFault): (r: Step<()>)
    ensures r.session.isLoading == s.isLoading
    ensures r.completion.Returned? <==> fault == AuthApi.NoFault
    ensures r.completion.Threw? ==> r.session == s
    ensures r.completion.Returned? ==>
              && r.session == s.(user := None, isAuthenticated := false)
              && SecureStore.AccessKey !in r.store && SecureStore.RefreshKey !in r.store
  {
    var api := AuthApi.Logout(store, fault);
    match api.completion
    case Threw(f) => Step(s, api.store, Threw(f))
    case Returned(_) => Step(s.(user := None, isAuthenticated := false), api.store, Returned(()))
  }

  /** `checkAuth`: sets `isLoading`, reads the access token and validates it.
      It never throws: no stored token, an invalid token or a failing read all
      end signed out and return false; a valid token ends authenticated with
      the user of the verify response and returns true. Every exit clears
      `isLoading`. The store writes no token itself, but the verify post runs
      through the interceptors, which may refresh or delete the tokens. */
  function CheckAuth(s: Session, store: Store, readFails: bool, server: AuthApi.Server<AuthApi.VerifyBody>): (r: Step<bool>)
    ensures r.completion.Returned?
    ensures !r.session.isLoading
    ensures Consistent(r.session)
    ensures r.completion.value == r.session.isAuthenticated
    ensures var post := AuthApi.Post(AuthApi.VerifyPath, store, server);
            r.completion.value <==> !readFails && SecureStore.Holds(store, SecureStore.AccessKey) && post.completion.Returned?
    ensures var post := AuthApi.Post(AuthApi.VerifyPath, store, server);
            r.completion.value ==> r.session.user == post.completion.value.user
    ensures !r.completion.value ==> r.session == SignedOut
    ensures readFails || !SecureStore.Holds(store, SecureStore.AccessKey) ==> r.store == store
    ensures !readFails && SecureStore.Holds(store, SecureStore.AccessKey) ==>
              r.store == AuthApi.Post(AuthApi.VerifyPath, store, server).store
    ensures r.store == store || r.store == SecureStore.ClearTokens(store) || AuthApi.RefreshedFrom(r.store, store, server.refresh)
  {
    var loading := s.(isLoading := true);
    if readFails then
      Step(loading.(isAuthenticated := false, user := None, isLoading := false), store, Returned(false))
    else if !SecureStore.Holds(store, SecureStore.AccessKey) then
      Step(loading.(isAuthenticated := false, user := None, isLoading := false), store, Returned(false))
    else
      var checked := AuthApi.ValidateToken(store, server);
      AuthApi.PostStoreEffects(AuthApi.VerifyPath, store, server);
      match checked.validation
      case Valid(data) => Step(loading.(isAuthenticated := true, user := data.user, isLoading := false), checked.store, Returned(true))
      case Invalid(_) => Step(loading.(isAuthenticated := false, user := None, isLoading := false), checked.store, Returned(false))
  }

  /** With no access token stored, `checkAuth` does not consult the verify
      endpoint at all: the backend's answers are irrelevant. */
  lemma CheckAuthWithoutTokenSkipsValidation(s: Session, store: Store, v1: AuthApi.Server<AuthApi.VerifyBody>, v2: AuthApi.Server<AuthApi.VerifyBody>)
    requires !SecureStore.Holds(store, SecureStore.AccessKey)
    ensures CheckAuth(s, store, false, v1) == CheckAuth(s, store, false, v2)
    ensures CheckAuth(s, store, false, v1) == Step(SignedOut, store, Returned(false))
  {
  }

  /** An expired access token whose refresh succeeds, but whose verify
      request is rejected again on the resend: `checkAuth` signs the user out
      while the store holds the fresh access token. */
  lemma CheckAuthSignsOutWithFreshTokens(s: Session, store: Store, server: AuthApi.Server<AuthApi.VerifyBody>, access: string)
    requires SecureStore.Holds(store, SecureStore.AccessKey) && SecureStore.Holds(store, SecureStore.RefreshKey)
    requires var first := server.send(AuthApi.AttachBearer(AuthApi.PostRequest(AuthApi.VerifyPath), store));
             first.Errored? && first.err.status == Some(AuthApi.Unauthorized)
    requires server.refresh(store[SecureStore.RefreshKey]) == AuthApi.Refreshed(Some(access), None)
    requires forall q: AuthApi.Request :: q.path == AuthApi.VerifyPath && q.retry ==> server.send(q).Errored?
    ensures var r := CheckAuth(s, store, false, server);
            && r.session == SignedOut
            && r.store == store[SecureStore.AccessKey := access]
  {
    var req := AuthApi.PostRequest(AuthApi.VerifyPath);
    var out := AuthApi.AttachBearer(req, store);
    var refreshed := store[SecureStore.AccessKey := access];
    assert AuthApi.SaveRefreshed(store, Some(access), None) == Some(refreshed);
    assert AuthApi.AttachBearer(out.(retry := true), refreshed).path == AuthApi.VerifyPath;
    var again := AuthApi.Execute(out.(retry := true), refreshed, server.send, server.refresh);
    assert again.outcome.Rejected?;
    assert AuthApi.Execute(req, store, server.send, server.refresh).store == refreshed;
  }

  /** An expired access token whose refresh is rejected: `checkAuth` signs
      the user out and both tokens are gone. */
  lemma CheckAuthFailedRefreshClearsTokens(s: Session, store: Store, server: AuthApi.Server<AuthApi.VerifyBody>)
    requires SecureStore.Holds(store, SecureStore.AccessKey) && SecureStore.Holds(store, SecureStore.RefreshKey)
    requires var first := server.send(AuthApi.AttachBearer(AuthApi.PostRequest(AuthApi.VerifyPath), store));
             first.Errored? && first.err.status == Some(AuthApi.Unauthorized)
    requires server.refresh(store[SecureStore.RefreshKey]).RefreshRejected?
    ensures var r := CheckAuth(s, store, false, server);
            r.session == SignedOut && r.store == SecureStore.ClearTokens(store)
  {
    AuthApi.FailedRefreshClearsTokens(AuthApi.PostRequest(AuthApi.VerifyPath), store, server.send, server.refresh);
  }

  /** A store action with the backend behind the calls it awaits. */
  datatype Action =
    | DoLogin(login: AuthApi.Server<AuthApi.LoginBody>)
    | DoRegister(register: AuthApi.Server<AuthApi.RegisterBody>)
    | DoLogout(fault: AuthApi.DeleteFault)
    | DoCheckAuth(readFails: bool, verify: AuthApi.Server<AuthApi.VerifyBody>)

  /** Which `register` the store runs: the one in the source, or the one
      reading the tokens where `authApi.register` puts them. */
  datatype Build = AsWritten | Corrected

  /** One action: the session and token store it leaves. */
  function Apply(s: Session, store: Store, a: Action, b: Build): (r: (Session, Store))
    ensures !a.DoCheckAuth? ==> r.0.isLoading == s.isLoading
    ensures a.DoCheckAuth? ==> !r.0.isLoading
    ensures Consistent(s) ==> Consistent(r.0)
  {
    match a
    case DoLogin(p) => var r := Login(s, store, p); (r.session, r.store)
    case DoRegister(p) =>
      var r := if b == AsWritten then Register(s, store, p) else RegisterCorrected(s, store, p);
      (r.session, r.store)
    case DoLogout(f) => var r := Logout(s, store, f); (r.session, r.store)
    case DoCheckAuth(rf, v) => var r := CheckAuth(s, store, rf, v); (r.session, r.store)
  }

  /** The actions applied one after another, each to the result of the last. */
  function Run(s: Session, store: Store, actions: seq<Action>, b: Build): (Session, Store)
    decreases |actions|
  {
    if actions == [] then (s, store)
    else
      var (s1, store1) := Apply(s, store, actions[0], b);
      Run(s1, store1, actions[1..], b)
  }

  /** Whatever actions run, starting consistent, the session never holds a
      user while signed out. */
  lemma {:induction false} RunKeepsConsistent(s: Session, store: Store, actions: seq<Action>, b: Build)
    requires Consistent(s)
    ensures Consistent(Run(s, store, actions, b).0)
    decreases |actions|
  {
    if actions != [] {
      var (s1, store1) := Apply(s, store, actions[0], b);
      RunKeepsConsistent(s1, store1, actions[1..], b);
    }
  }

  /** Every state reachable from the initial one is consistent. */
  lemma ReachableConsistent(store: Store, actions: seq<Action>, b: Build)
    ensures Consistent(Run(Initial, store, actions, b).0)
  {
    RunKeepsConsistent(Initial, store, actions, b);
  }

  /** Only `checkAuth` changes `isLoading`: a run of the other actions leaves
      it as it was. */
  lemma {:induction false} OnlyCheckAuthChangesLoading(s: Session, store: Store, actions: seq<Action>, b: Build)
    requires forall i :: 0 <= i < |actions| ==> !actions[i].DoCheckAuth?
    ensures Run(s, store, actions, b).0.isLoading == s.isLoading
    decreases |actions|
  {
    if actions != [] {
      var (s1, store1) := Apply(s, store, actions[0], b);
      OnlyCheckAuthChangesLoading(s1, store1, actions[1..], b);
    }
  }

  /** After any run that ends with `checkAuth`, the store is no longer
      loading. */
  lemma {:induction false} LoadingEndsWithCheckAuth(s: Session, store: Store, actions: seq<Action>, b: Build)
    requires actions != [] && actions[|actions| - 1].DoCheckAuth?
    ensures !Run(s, store, actions, b).0.isLoading
    decreases |actions|
  {
    if |actions| > 1 {
      var (s1, store1) := Apply(s, store, actions[0], b);
      LoadingEndsWithCheckAuth(s1, store1, actions[1..], b);
    }
  }
}
