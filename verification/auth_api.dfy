/** The auth HTTP client: the request interceptor that attaches the bearer
    token, the response interceptor that refreshes the token once on a 401 and
    retries, and the token effects of `login`, `register`, `validateToken`,
    `logout` and `checkOrganization`. */
module AuthApi {
  import opened Common
  import SecureStore

  type Store = SecureStore.Store

  /** An outgoing request: its path, its headers and the `_retry` mark the
      response interceptor puts on it before retrying. */
  datatype Request = Request(path: string, headers: map<string, string>, retry: bool)

  /** A rejected request; `status` is absent when there was no response. */
  datatype HttpError = HttpError(status: Option<int>, message: string)

  /** What the backend does with one request. */
  datatype Reply = Answered(body: string) | Errored(err: HttpError)

  /** What `POST token/refresh/` gives back: the `access` and `refresh` fields
      of the response, or the request's rejection. */
  datatype RefreshReply = Refreshed(access: Option<string>, refresh: Option<string>) | RefreshRejected(err: HttpError)

  /** Why a call rejected. `Storage` is the secure store refusing a value that
      is not a string; `TypeError` is reading a property of `undefined`. */
  datatype Failure = Http(err: HttpError) | NoRefreshToken | Storage | TypeError

  datatype Outcome = Resolved(body: string) | Rejected(failure: Failure)

  /** One request through both interceptors: how it ended, the token store
      afterwards, every request put on the wire (after the request
      interceptor) and the number of refresh calls made. */
  datatype Exchange = Exchange(outcome: Outcome, store: Store, sent: seq<Request>, refreshes: nat)

  const Unauthorized: int := 401

  function Bearer(token: string): string
  {
    "Bearer " + token
  }

  /** The request interceptor: `Authorization: Bearer <t>` when an access
      token `t` is stored (and is not the empty string); otherwise the request
      goes out unchanged. */
  function AttachBearer(req: Request, store: Store): (r: Request)
    ensures r.path == req.path && r.retry == req.retry
    ensures SecureStore.Holds(store, SecureStore.AccessKey) ==>
              r.headers == req.headers["Authorization" := Bearer(store[SecureStore.AccessKey])]
    ensures !SecureStore.Holds(store, SecureStore.AccessKey) ==> r == req
  {
    match SecureStore.Get(store, SecureStore.AccessKey)
    case Some(t) =>
      if t != "" then req.(headers := req.headers["Authorization" := Bearer(t)]) else req
    case None => req
  }

  /** The refresh token as the response interceptor reads it, when usable. */
  function StoredRefreshToken(store: Store): (r: Option<string>)
    ensures r.Some? <==> SecureStore.Holds(store, SecureStore.RefreshKey)
    ensures r.Some? ==> r.value == store[SecureStore.RefreshKey]
  {
    if SecureStore.Holds(store, SecureStore.RefreshKey) then Some(store[SecureStore.RefreshKey]) else None
  }

  /** Saves the tokens a successful refresh returned: the access token always,
      the refresh token only when the reply carries a non-empty one. `None`
      when the store rejects a missing access token. */
  function SaveRefreshed(store: Store, access: Option<string>, refresh: Option<string>): (r: Option<Store>)
    ensures r.None? <==> access.None?
    ensures r.Some? ==> SecureStore.AccessKey in r.value && r.value[SecureStore.AccessKey] == access.value
    ensures r.Some? && refresh.Some? && refresh.value != "" ==>
              SecureStore.RefreshKey in r.value && r.value[SecureStore.RefreshKey] == refresh.value
    ensures r.Some? && (refresh.None? || refresh.value == "") ==>
              (SecureStore.RefreshKey in r.value <==> SecureStore.RefreshKey in store) &&
              (SecureStore.RefreshKey in store ==> r.value[SecureStore.RefreshKey] == store[SecureStore.RefreshKey])
  {
    match SecureStore.Set(store, SecureStore.AccessKey, access)
    case None => None
    case Some(s1) =>
      if refresh.Some? && refresh.value != "" then SecureStore.Set(s1, SecureStore.RefreshKey, refresh) else Some(s1)
  }

  /** Sends `req` through the request interceptor and, on an error, through
      the response interceptor. A request not yet marked `_retry` can cause at
      most one refresh and one resend; a marked one causes none. */
  function Execute(req: Request, store: Store, send: Request -> Reply, refresh: string -> RefreshReply): (x: Exchange)
    ensures 1 <= |x.sent| <= (if req.retry then 1 else 2)
    ensures x.refreshes <= (if req.retry then 0 else 1)
    ensures x.sent[0] == AttachBearer(req, store)
    ensures |x.sent| == 2 ==> x.sent[1].retry
    ensures req.retry ==> x.store == store
    decreases if req.retry then 0 else 1, 1
  {
    var out := AttachBearer(req, store);
    match send(out)
    case Answered(body) => Exchange(Resolved(body), store, [out], 0)
    case Errored(e) =>
      var x := OnError(out, e, store, send, refresh);
      x.(sent := [out] + x.sent)
  }

  /** The response interceptor. Only a 401 on a request not marked `_retry`
      is handled: the request is marked, the refresh token exchanged, the new
      tokens saved and the request sent again. Every other error is passed on
      unchanged. A missing refresh token rejects without touching the store;
      any failure of the refresh itself deletes both tokens. The resend's own
      rejection is not caught, so it leaves the tokens in place. */
  function OnError(req: Request, e: HttpError, store: Store, send: Request -> Reply, refresh: string -> RefreshReply): (x: Exchange)
    ensures |x.sent| <= (if req.retry then 0 else 1)
    ensures x.refreshes <= (if req.retry then 0 else 1)
    ensures |x.sent| == 1 ==> x.sent[0].retry
    ensures req.retry ==> x == Exchange(Rejected(Http(e)), store, [], 0)
    ensures e.status != Some(Unauthorized) ==> x == Exchange(Rejected(Http(e)), store, [], 0)
    ensures !req.retry && e.status == Some(Unauthorized) && !SecureStore.Holds(store, SecureStore.RefreshKey) ==>
              x == Exchange(Rejected(NoRefreshToken), store, [], 0)
    ensures !req.retry && e.status == Some(Unauthorized) && SecureStore.Holds(store, SecureStore.RefreshKey) ==>
              x.refreshes == 1
    decreases if req.retry then 0 else 1, 0
  {
    if e.status == Some(Unauthorized) && !req.retry then
      var marked := req.(retry := true);
      match StoredRefreshToken(store)
      case None => Exchange(Rejected(NoRefreshToken), store, [], 0)
      case Some(rt) =>
        match refresh(rt)
        case RefreshRejected(re) => Exchange(Rejected(Http(re)), SecureStore.ClearTokens(store), [], 1)
        case Refreshed(access, newRefresh) =>
          match SaveRefreshed(store, access, newRefresh)
          case None => Exchange(Rejected(Storage), SecureStore.ClearTokens(store), [], 1)
          case Some(saved) =>
            var again := Execute(marked, saved, send, refresh);
            again.(refreshes := again.refreshes + 1)
    else
      Exchange(Rejected(Http(e)), store, [], 0)
  }

  /** An error other than a 401 on a fresh request is rejected as it came,
      with no refresh and the token store untouched. */
  lemma OtherErrorsPropagate(req: Request, store: Store, send: Request -> Reply, refresh: string -> RefreshReply, e: HttpError)
    requires send(AttachBearer(req, store)) == Errored(e)
    requires e.status != Some(Unauthorized) || req.retry
    ensures Execute(req, store, send, refresh) == Exchange(Rejected(Http(e)), store, [AttachBearer(req, store)], 0)
  {
  }

  /** A 401 with no usable refresh token rejects with "No refresh token
      available" and leaves both tokens where they were. */
  lemma MissingRefreshTokenKeepsTokens(req: Request, store: Store, send: Request -> Reply, refresh: string -> RefreshReply)
    requires !req.retry
    requires send(AttachBearer(req, store)).Errored?
    requires send(AttachBearer(req, store)).err.status == Some(Unauthorized)
    requires !SecureStore.Holds(store, SecureStore.RefreshKey)
    ensures var x := Execute(req, store, send, refresh);
            x.outcome == Rejected(NoRefreshToken) && x.store == store && x.refreshes == 0 && |x.sent| == 1
  {
  }

  /** A failed refresh, whether the refresh request is rejected or its reply
      has no access token, deletes both tokens and sends nothing more. */
  lemma FailedRefreshClearsTokens(req: Request, store: Store, send: Request -> Reply, refresh: string -> RefreshReply)
    requires !req.retry
    requires send(AttachBearer(req, store)).Errored?
    requires send(AttachBearer(req, store)).err.status == Some(Unauthorized)
    requires SecureStore.Holds(store, SecureStore.RefreshKey)
    requires var rr := refresh(store[SecureStore.RefreshKey]);
             rr.RefreshRejected? || rr.access.None?
    ensures var x := Execute(req, store, send, refresh);
            x.outcome.Rejected? && x.store == SecureStore.ClearTokens(store) && x.refreshes == 1 && |x.sent| == 1
  {
  }

  /** A successful refresh overwrites the access token, replaces the refresh
      token only when a new one is supplied, and resends the request once,
      marked `_retry` and carrying the new token; the caller sees whatever
      the resend produced. */
  lemma RefreshThenRetryOnce(req: Request, store: Store, send: Request -> Reply, refresh: string -> RefreshReply, access: string, newRefresh: Option<string>)
    requires !req.retry
    requires send(AttachBearer(req, store)).Errored?
    requires send(AttachBearer(req, store)).err.status == Some(Unauthorized)
    requires SecureStore.Holds(store, SecureStore.RefreshKey)
    requires refresh(store[SecureStore.RefreshKey]) == Refreshed(Some(access), newRefresh)
    ensures var x := Execute(req, store, send, refresh);
            && |x.sent| == 2
            && x.refreshes == 1
            && x.sent[1].retry
            && (access != "" ==> "Authorization" in x.sent[1].headers && x.sent[1].headers["Authorization"] == Bearer(access))
            && SecureStore.AccessKey in x.store && x.store[SecureStore.AccessKey] == access
            && SecureStore.RefreshKey in x.store
            && x.store[SecureStore.RefreshKey] ==
                 (if newRefresh.Some? && newRefresh.value != "" then newRefresh.value else store[SecureStore.RefreshKey])
            && (send(x.sent[1]).Answered? ==> x.outcome == Resolved(send(x.sent[1]).body))
            && (send(x.sent[1]).Errored? ==> x.outcome == Rejected(Http(send(x.sent[1]).err)))
  {
    var out := AttachBearer(req, store);
    var saved := SaveRefreshed(store, Some(access), newRefresh).value;
    var again := Execute(out.(retry := true), saved, send, refresh);
    assert again.sent[0] == AttachBearer(out.(retry := true), saved);
    assert Execute(req, store, send, refresh).sent == [out] + again.sent;
  }

  /** A 401 on the resent request is rejected without a second refresh. */
  lemma NoSecondRefresh(req: Request, store: Store, send: Request -> Reply, refresh: string -> RefreshReply)
    requires req.retry
    requires send(AttachBearer(req, store)).Errored?
    ensures var x := Execute(req, store, send, refresh);
            x.refreshes == 0 && x.store == store && x.outcome == Rejected(Http(send(AttachBearer(req, store)).err))
  {
  }

  /** The store a successful refresh leaves: the stored refresh token was
      exchanged and the reply's tokens saved over `store`. */
  predicate RefreshedFrom(after: Store, store: Store, refresh: string -> RefreshReply)
  {
    match StoredRefreshToken(store)
    case None => false
    case Some(rt) =>
      match refresh(rt)
      case RefreshRejected(_) => false
      case Refreshed(access, newRefresh) => SaveRefreshed(store, access, newRefresh) == Some(after)
  }

  /** Whatever the backend answers, one request leaves the token store in one
      of three states: as it was (always, when no refresh was made), with both
      tokens deleted, or holding the tokens of a successful refresh. */
  lemma ExchangeStoreEffects(req: Request, store: Store, send: Request -> Reply, refresh: string -> RefreshReply)
    ensures var x := Execute(req, store, send, refresh);
            && (x.refreshes == 0 ==> x.store == store)
            && (x.store == store || x.store == SecureStore.ClearTokens(store) || RefreshedFrom(x.store, store, refresh))
  {
    var out := AttachBearer(req, store);
    match send(out)
    case Answered(_) =>
    case Errored(e) =>
      if e.status == Some(Unauthorized) && !req.retry {
        match StoredRefreshToken(store)
        case None =>
        case Some(rt) =>
          match refresh(rt)
          case RefreshRejected(_) =>
          case Refreshed(access, newRefresh) =>
            match SaveRefreshed(store, access, newRefresh)
            case None =>
            case Some(saved) =>
              var again := Execute(out.(retry := true), saved, send, refresh);
              assert again.store == saved;
              assert Execute(req, store, send, refresh).store == saved;
      }
  }

  // ---- authApi calls and their token effects ----

  /** The headers every `api` request starts with. */
  const JsonHeaders: map<string, string> := map["Content-Type" := "application/json"]

  const LoginPath: string := "/auth/login/"
  const RegisterPath: string := "/auth/register/"
  const VerifyPath: string := "/token/verify/"

  /** A fresh `api.post` request to `path`; its body is not modelled. */
  function PostRequest(path: string): Request
  {
    Request(path, JsonHeaders, false)
  }

  /** The backend as one call sees it: its answer to each request sent
      through `api`, its answer to the bare `token/refresh/` post, and the
      fields the caller reads from a resolved `response.data`. */
  datatype Server<T> = Server(send: Request -> Reply, refresh: string -> RefreshReply, read: string -> T)

  /** `api.post(path, …)`: the request goes through both interceptors; a
      resolved response is read into the caller's fields, and the store is
      whatever the exchange left. */
  function Post<T>(path: string, store: Store, server: Server<T>): (r: Effect<T>)
    ensures var x := Execute(PostRequest(path), store, server.send, server.refresh);
            && r.store == x.store
            && (r.completion.Returned? <==> x.outcome.Resolved?)
            && (x.outcome.Resolved? ==> r.completion.value == server.read(x.outcome.body))
            && (x.outcome.Rejected? ==> r.completion.error == x.outcome.failure)
  {
    var x := Execute(PostRequest(path), store, server.send, server.refresh);
    match x.outcome
    case Resolved(body) => Effect(Returned(server.read(body)), x.store)
    case Rejected(f) => Effect(Threw(f), x.store)
  }

  /** A post leaves the store as it was, with both tokens deleted, or holding
      a refresh's tokens; a post the backend answers on the first send leaves
      it as it was. */
  lemma PostStoreEffects<T>(path: string, store: Store, server: Server<T>)
    ensures var r := Post(path, store, server);
            r.store == store || r.store == SecureStore.ClearTokens(store) || RefreshedFrom(r.store, store, server.refresh)
    ensures server.send(AttachBearer(PostRequest(path), store)).Answered? ==>
              Post(path, store, server) ==
                Effect(Returned(server.read(server.send(AttachBearer(PostRequest(path), store)).body)), store)
  {
    ExchangeStoreEffects(PostRequest(path), store, server.send, server.refresh);
  }


  /** The fields of the `auth/login/` response. */
  datatype LoginBody = LoginBody(access: Option<string>, refresh: Option<string>, user: Option<User>)

  datatype TokenPair = TokenPair(access: string, refresh: string)

  /** What `login` returns, and what `register` returns for a response that
      carries tokens: `{user, tokens: {access, refresh}}`. */
  datatype Session = Session(user: Option<User>, tokens: TokenPair)

  /** An awaited authApi call: how it ended and the token store afterwards. */
  datatype Effect<+T> = Effect(completion: Completion<T, Failure>, store: Store)

  /** Saves the access token then the refresh token; a missing value rejects
      at that write, after any earlier write took effect. */
  function SaveBoth(store: Store, access: Option<string>, refresh: Option<string>): (r: Effect<TokenPair>)
    ensures r.completion.Returned? <==> access.Some? && refresh.Some?
    ensures r.completion.Returned? ==>
              && r.completion.value == TokenPair(access.value, refresh.value)
              && SecureStore.AccessKey in r.store && r.store[SecureStore.AccessKey] == access.value
              && SecureStore.RefreshKey in r.store && r.store[SecureStore.RefreshKey] == refresh.value
    ensures access.None? ==> r.store == store
  {
    match SecureStore.Set(store, SecureStore.AccessKey, access)
    case None => Effect(Threw(Storage), store)
    case Some(s1) =>
      match SecureStore.Set(s1, SecureStore.RefreshKey, refresh)
      case None => Effect(Threw(Storage), s1)
      case Some(s2) => Effect(Returned(TokenPair(access.value, refresh.value)), s2)
  }

  /** `authApi.login`: the post goes through the interceptors; on success
      both returned tokens are stored and `{user, tokens}` is returned; a
      rejected post is rethrown with the store the exchange left. */
  function Login(store: Store, server: Server<LoginBody>): (r: Effect<Session>)
    ensures var p := Post(LoginPath, store, server);
            p.completion.Threw? ==> r == Effect(Threw(p.completion.error), p.store)
    ensures var p := Post(LoginPath, store, server);
            r.completion.Returned? ==>
              && p.completion.Returned?
              && r.completion.value.user == p.completion.value.user
              && Some(r.completion.value.tokens.access) == p.completion.value.access
              && Some(r.completion.value.tokens.refresh) == p.completion.value.refresh
              && SecureStore.Get(r.store, SecureStore.AccessKey) == p.completion.value.access
              && SecureStore.Get(r.store, SecureStore.RefreshKey) == p.completion.value.refresh
    ensures var p := Post(LoginPath, store, server);
            p.completion.Returned? && p.completion.value.access.Some? && p.completion.value.refresh.Some? ==>
              r.completion.Returned?
  {
    var p := Post(LoginPath, store, server);
    match p.completion
    case Threw(f) => Effect(Threw(f), p.store)
    case Returned(body) =>
      var saved := SaveBoth(p.store, body.access, body.refresh);
      match saved.completion
      case Threw(f) => Effect(Threw(f), saved.store)
      case Returned(tokens) => Effect(Returned(Session(body.user, tokens)), saved.store)
  }

  /** The fields of the `auth/register/` response the client can read. The
      backend may name its tokens `access`/`refresh`, or the store's
      `accessToken`/`refreshToken`. */
  datatype RegisterBody = RegisterBody(
    access: Option<string>, refresh: Option<string>,
    accessToken: Option<string>, refreshToken: Option<string>,
    user: Option<User>)

  /** What `register` returns: the login-shaped `{user, tokens}` when the
      response carried `access` and `refresh`, otherwise the raw body. */
  datatype Registered = WithTokens(session: Session) | Raw(body: RegisterBody)

  /** `response.data.access && response.data.refresh`. */
  predicate CarriesTokens(b: RegisterBody)
  {
    b.access.Some? && b.access.value != "" && b.refresh.Some? && b.refresh.value != ""
  }

  /** `authApi.register`: the post goes through the interceptors; a
      response with both tokens has them stored and is returned as
      `{user, tokens}`; any other response is returned as it came, storing
      nothing more; a rejected post is rethrown. */
  function Register(store: Store, server: Server<RegisterBody>): (r: Effect<Registered>)
    ensures var p := Post(RegisterPath, store, server);
            p.completion.Threw? ==> r == Effect(Threw(p.completion.error), p.store)
    ensures var p := Post(RegisterPath, store, server);
            p.completion.Returned? && !CarriesTokens(p.completion.value) ==>
              r == Effect(Returned(Raw(p.completion.value)), p.store)
    ensures var p := Post(RegisterPath, store, server);
            p.completion.Returned? && CarriesTokens(p.completion.value) ==>
              && r.completion.Returned? && r.completion.value.WithTokens?
              && r.completion.value.session.user == p.completion.value.user
              && r.completion.value.session.tokens ==
                   TokenPair(p.completion.value.access.value, p.completion.value.refresh.value)
              && r.store == p.store[SecureStore.AccessKey := p.completion.value.access.value]
                                   [SecureStore.RefreshKey := p.completion.value.refresh.value]
  {
    var p := Post(RegisterPath, store, server);
    match p.completion
    case Threw(f) => Effect(Threw(f), p.store)
    case Returned(body) =>
      if CarriesTokens(body) then
        var saved := SaveBoth(p.store, body.access, body.refresh);
        assert saved.completion.Returned?;
        Effect(Returned(WithTokens(Session(body.user, saved.completion.value))), saved.store)
      else
        Effect(Returned(Raw(body)), p.store)
  }

  /** The `token/verify/` response body as the store reads it. */
  datatype VerifyBody = VerifyBody(user: Option<User>)

  datatype Validation = Valid(data: VerifyBody) | Invalid(reason: InvalidReason)
  datatype InvalidReason = NoTokenFound | RequestFailed(failure: Failure)

  /** What `validateToken` reports, the store afterwards, and whether a
      verify request was made. */
  datatype TokenCheck = TokenCheck(validation: Validation, store: Store, requested: bool)

  /** `validateToken` never throws: it reports `valid: false` without any
      request when no access token is stored; otherwise it posts the token
      through the interceptors and is valid iff that post resolved. The
      store is whatever the exchange left, so a 401 may refresh or delete
      the tokens even when the answer is `valid: false`. */
  function ValidateToken(store: Store, server: Server<VerifyBody>): (r: TokenCheck)
    ensures !SecureStore.Holds(store, SecureStore.AccessKey) ==> r == TokenCheck(Invalid(NoTokenFound), store, false)
    ensures SecureStore.Holds(store, SecureStore.AccessKey) ==>
              r.requested && r.store == Post(VerifyPath, store, server).store
    ensures r.validation.Valid? <==>
              SecureStore.Holds(store, SecureStore.AccessKey) && Post(VerifyPath, store, server).completion.Returned?
    ensures r.validation.Valid? ==> r.validation.data == Post(VerifyPath, store, server).completion.value
  {
    if !SecureStore.Holds(store, SecureStore.AccessKey) then TokenCheck(Invalid(NoTokenFound), store, false)
    else
      var p := Post(VerifyPath, store, server);
      match p.completion
      case Returned(body) => TokenCheck(Valid(body), p.store, true)
      case Threw(f) => TokenCheck(Invalid(RequestFailed(f)), p.store, true)
  }

  /** Where a secure-store delete may fail during `logout`. */
  datatype DeleteFault = NoFault | AccessDeleteFails | RefreshDeleteFails

  /** `authApi.logout`: deletes the access token then the refresh token and
      resolves; a failing delete rethrows with the earlier delete done. */
  function Logout(store: Store, fault: DeleteFault): (r: Effect<bool>)
    ensures fault == NoFault ==> r == Effect(Returned(true), SecureStore.ClearTokens(store))
    ensures fault == AccessDeleteFails ==> r == Effect(Threw(Storage), store)
    ensures fault == RefreshDeleteFails ==>
              r.completion.Threw? && SecureStore.AccessKey !in r.store &&
              SecureStore.Get(r.store, SecureStore.RefreshKey) == SecureStore.Get(store, SecureStore.RefreshKey)
  {
    match fault
    case AccessDeleteFails => Effect(Threw(Storage), store)
    case RefreshDeleteFails => Effect(Threw(Storage), SecureStore.Delete(store, SecureStore.AccessKey))
    case NoFault => Effect(Returned(true), SecureStore.ClearTokens(store))
  }

  /** Logging out twice leaves the same store as logging out once, and no
      token is left behind. */
  lemma LogoutIdempotent(store: Store)
    ensures var once := Logout(store, NoFault).store;
            && Logout(once, NoFault).store == once
            && SecureStore.AccessKey !in once && SecureStore.RefreshKey !in once
  {
    SecureStore.ClearTokensIdempotent(store);
  }

  /** The `checkOrganization` response: HTTP status and body. */
  datatype HttpResponse = HttpResponse(status: int, data: JsValue)

  const StatusOk: int := 200

  /** The header `checkOrganization` sends: it bypasses the interceptor and
      interpolates the stored token even when there is none, giving
      "Bearer null". */
  function OrganizationAuthHeader(store: Store): (h: string)
    ensures SecureStore.AccessKey in store ==> h == Bearer(store[SecureStore.AccessKey])
    ensures SecureStore.AccessKey !in store ==> h == Bearer("null")
  {
    match SecureStore.Get(store, SecureStore.AccessKey)
    case Some(t) => Bearer(t)
    case None => Bearer("null")
  }

  /** `checkOrganization`: the body on a 200, `null` on any other resolved
      status; a rejected request is rethrown. The token store is only read. */
  function CheckOrganization(get: Completion<HttpResponse, Failure>): (r: Completion<JsValue, Failure>)
    ensures get.Threw? ==> r == Threw(get.error)
    ensures get.Returned? ==> r.Returned?
    ensures get.Returned? && get.value.status == StatusOk ==> r.value == get.value.data
    ensures get.Returned? && get.value.status != StatusOk ==> r.value == Null
  {
    match get
    case Threw(f) => Threw(f)
    case Returned(resp) => if resp.status == StatusOk then Returned(resp.data) else Returned(Null)
  }

  /** After a logout that deleted the access token, `checkOrganization`
      sends "Bearer null" rather than no header. */
  lemma LogoutThenOrganizationHeader(store: Store, fault: DeleteFault)
    requires fault != AccessDeleteFails
    ensures OrganizationAuthHeader(Logout(store, fault).store) == Bearer("null")
  {
  }

  /** `checkOrganization` uses plain axios, not `api`: a 401 is rethrown as
      it came, where the same 401 on an unmarked `api` request with a stored
      refresh token triggers a refresh. */
  lemma OrganizationCheckSkipsRefresh(req: Request, e: HttpError, store: Store, send: Request -> Reply, refresh: string -> RefreshReply)
    requires e.status == Some(Unauthorized) && !req.retry
    requires SecureStore.Holds(store, SecureStore.RefreshKey)
    ensures CheckOrganization(Threw(Http(e))) == Threw(Http(e))
    ensures OnError(req, e, store, send, refresh).refreshes == 1
  {
  }
}
