# wasteops-mobile session, routing and form logic in Dafny

This project models the client-side core of the wasteops-mobile app (React
Native, expo-router, zustand). It covers:

- the process-wide session store `{user, isAuthenticated, isLoading}` and its four actions;
- the route guards of the root, auth and dashboard layouts and the index screen;
- the auth HTTP client, with the bearer-token request interceptor and the one-shot refresh-and-retry response interceptor;
- the `useAuth` hook's zod validation and `register`/`login` control flow;
- the registration screen's field rules;
- the join-code and employee-data hooks;
- the facility and truck modals' form-to-payload conversions.

Everything is functional: states are immutable datatypes, and each action is
a pure function of the previous state and of the outcomes of the calls it
awaits. Those outcomes are inputs: `Completion<T, E>` is `Returned(value)` or
`Threw(error)`, and a confirmation dialog is a boolean. The auth client's
backend is an input too: `AuthApi.Server` gives its answer to each request
sent through the interceptors, its answer to the refresh call, and the
fields read from a resolved body. The secure token
store is a `map<string, string>`. Navigations are the `seq<Route>` of
`replace` calls an effect issues.

Modules follow the source files:

| module | file |
|---|---|
| `Common` | shared values: `Option`, `Completion`, `Route`, `User`, the JavaScript values the code tests for truthiness |
| `SecureStore` | the expo secure store as a map |
| `Numbers` | decimal digit strings, `parseInt` on its decimal subset, `toString` |
| `AuthApi` | services/api/auth.ts |
| `AuthStore` | store/authStore.ts |
| `Routing` | app/_layout.tsx, app/auth/_layout.tsx, app/dashboard/_layout.tsx, app/index.tsx |
| `AuthHook` | hooks/useAuth.ts |
| `RegisterForm` | app/auth/register.tsx |
| `JoinCodes` | hooks/useJoinCode.ts |
| `EmployeeData` | hooks/useEmployeeData.ts |
| `AddFacilityModal`, `FacilityDetailsModal` | components/AddFacilityModal.tsx, components/FacilityDetailsModal.tsx |
| `AddTruckModal`, `TruckDetailsModal` | components/AddTruckModal.tsx, components/TruckDetailsModal.tsx |

The model keeps these behaviours of the code as written:

- **`hasOrganization` is always `undefined`.** The store has no `hasOrganization` field, yet the root layout and `useEmployeeData` read it. So the root layout never routes to `/organizationCreate` (`Routing.RootLayout`), and the employee pipeline never fetches (`EmployeeData.NeverFetchesWithoutOrganizationField`).
- **Double navigation.** When `hasOrganization === null`, the root layout issues two `replace` calls, and the second one lands on `/panel`.
- **Retry failures keep the tokens.** The refresh interceptor returns the retried request without awaiting it inside its `try`, so a failing retry does not delete the tokens.
- **`checkOrganization` can send "Bearer null".** It bypasses the interceptor and sends `Bearer null` when no token is stored.
- **A failed auth call can still change the tokens.** `login`, `register` and `validateToken` post through the interceptors, so a 401 may refresh the tokens or delete them before the call fails. `checkAuth` can therefore sign the user out while fresh tokens are stored (`AuthStore.CheckAuthSignsOutWithFreshTokens`).
- **Empty zod path.** An issue with an empty path is stored under the key "undefined".
- **Role enum.** The role message says "(A or U)" but the role enum is {A, E}. The registration form's default role 'U' therefore never passes the hook's validation.

## Model

| member | source | states |
|---|---|---|
| Common.OrElse | hooks/useAuth.ts:87 | the string, or the fallback when the string is empty; the result is empty only if both are |
| Common.EmptyToUndefined | components/AddFacilityModal.tsx:54-55 | an empty string becomes `undefined`: absent exactly for the empty string, otherwise the string itself |
| Common.UndefinedToEmpty | components/FacilityDetailsModal.tsx:206-207 | a missing optional string becomes '': the value when present, '' when missing |
| Common.EmptyToUndefinedRoundTrip | components/FacilityDetailsModal.tsx:206-207 | restoring a dropped optional field as '' gives back the original text |
| SecureStore.Get | utils/secureStorage.ts:9-11 | a read yields the stored string exactly when the key is present |
| SecureStore.Set | utils/secureStorage.ts:4-6 | a write stores the value under the key and keeps every other entry; a non-string value rejects |
| SecureStore.Delete | utils/secureStorage.ts:14-16 | a delete removes exactly that key and keeps every other entry |
| SecureStore.ClearTokens | services/api/auth.ts:72-73 | deleting both tokens leaves neither and keeps all other keys with their values |
| SecureStore.ClearTokensIdempotent | services/api/auth.ts:148-151 | clearing the tokens twice is clearing them once |
| Numbers.LeadingDigits | components/AddFacilityModal.tsx:53 | the longest all-digit prefix of the text, the run `parseInt` reads |
| Numbers.ParseInt | components/AddFacilityModal.tsx:53 | `parseInt` yields no number (NaN) exactly when the text is empty or does not start with a digit |
| Numbers.ParseIntOrZero | components/AddTruckModal.tsx:39 | `parseInt` falling back to 0: 0 when there is no number, the number otherwise |
| Numbers.NatToString | components/FacilityDetailsModal.tsx:205 | `toString` of a count is non-empty decimal text without leading zeros |
| Numbers.DecimalValueOfToString | app/auth/register.tsx:38 | `Number` of a count's decimal text is that count |
| Numbers.ParseIntToString | components/FacilityDetailsModal.tsx:205 | `parseInt(n.toString())` gives back `n` |
| Numbers.ParseIntIgnoresTail | components/AddFacilityModal.tsx:53 | `parseInt` reads the leading digits and ignores whatever non-digit text follows |
| Numbers.LeadingDigitsOfDigits | components/AddFacilityModal.tsx:53 | all-digit text is read whole |
| Numbers.LeadingDigitsAppend | components/AddFacilityModal.tsx:53 | the digit run stops at the first non-digit |
| AuthApi.AttachBearer | services/api/auth.ts:26-35 | `Authorization: Bearer <t>` is set iff a non-empty access token `t` is stored; otherwise the request is unchanged |
| AuthApi.StoredRefreshToken | services/api/auth.ts:48-49 | the refresh token is usable exactly when stored and non-empty |
| AuthApi.SaveRefreshed | services/api/auth.ts:58-65 | the access token is always overwritten; the refresh token is replaced only when the reply supplies a non-empty one; a missing access token rejects |
| AuthApi.Execute | services/api/auth.ts:38-80 | one request through both interceptors: at most one refresh and two sends; the first send carries the bearer; a resend is marked `_retry`; a marked request never touches the store |
| AuthApi.OnError | services/api/auth.ts:40-79 | the response interceptor handles only a 401 on an unmarked request: any other error, and any error of a marked request, is rejected as it came with the store untouched; a 401 without a refresh token rejects with "No refresh token available", keeping the store; a 401 with one makes exactly one refresh call |
| AuthApi.OtherErrorsPropagate | services/api/auth.ts:44-78 | any error but a 401 on a fresh request is rejected as it came, with no refresh and the store untouched |
| AuthApi.MissingRefreshTokenKeepsTokens | services/api/auth.ts:48-52 | a 401 without a refresh token rejects with "No refresh token available" and keeps both tokens |
| AuthApi.FailedRefreshClearsTokens | services/api/auth.ts:70-74 | a rejected refresh, or a reply without an access token, deletes both tokens and sends nothing more |
| AuthApi.RefreshThenRetryOnce | services/api/auth.ts:54-69 | a successful refresh stores the new tokens and resends the request once, marked and carrying the new bearer; the caller gets the resend's result |
| AuthApi.NoSecondRefresh | services/api/auth.ts:44-45 | a 401 on the resent request is rejected with no second refresh |
| AuthApi.ExchangeStoreEffects | services/api/auth.ts:44-79 | one request leaves the token store as it was (always, when no refresh was made), with both tokens deleted, or holding a successful refresh's tokens |
| AuthApi.PostStoreEffects | services/api/auth.ts:85 | an `api.post` leaves the store in one of those three states, and a post answered on the first send returns its body with the store as it was |
| AuthApi.SaveBoth | services/api/auth.ts:90-91 | both tokens are stored iff both are present; a missing access token leaves the store as it was |
| AuthApi.Login | services/api/auth.ts:83-98 | the post runs through the interceptors; success iff the response had both tokens, which are then stored and returned with the user; a rejected post is rethrown with the store the exchange left, which a 401 may have refreshed or cleared |
| AuthApi.Register | services/api/auth.ts:100-120 | the post runs through the interceptors; a response carrying `access` and `refresh` has both stored over the exchange's store and is returned as `{user, tokens: {access, refresh}}`; any other response is returned raw, writing nothing more; a rejected post is rethrown with the exchange's store |
| AuthApi.ValidateToken | services/api/auth.ts:122-139 | no stored token means `valid: false` with no request and the store unchanged; otherwise the verify post runs through the interceptors, the answer is valid iff it resolved, and the store is the one the exchange left; it never throws |
| AuthApi.Logout | services/api/auth.ts:142-156 | logout deletes both tokens; a failing delete rethrows with the earlier delete done |
| AuthApi.LogoutIdempotent | services/api/auth.ts:148-151 | logging out twice leaves the same store as once, with no token left |
| AuthApi.OrganizationAuthHeader | services/api/auth.ts:169-173 | the stored token as a bearer, or "Bearer null" when there is none |
| AuthApi.CheckOrganization | services/api/auth.ts:168-179 | the body on status 200, `null` on any other resolved status; a rejection is rethrown |
| AuthApi.LogoutThenOrganizationHeader | services/api/auth.ts:169-173 | after a logout that deleted the access token, the organization check sends "Bearer null" |
| AuthApi.OrganizationCheckSkipsRefresh | services/api/auth.ts:168-179 | the organization check rethrows a 401 as it came, where the same 401 on an `api` request with a refresh token is refreshed |
| AuthStore.Login | store/authStore.ts:21-35 | success iff the API returned both tokens; then the tokens are stored and the user authenticated; a failure rethrows with the session unchanged; `isLoading` is untouched |
| AuthStore.Register | store/authStore.ts:37-48 | `register` as written: success iff the response carried no `access`/`refresh` pair but did carry `accessToken` and `refreshToken`; then those two are stored and the response's user is authenticated; any failure rethrows with the session unchanged; `isLoading` is untouched |
| AuthStore.RegisterDropsIssuedTokens | store/authStore.ts:39-41 | when the backend issues tokens, the tokens are stored but the store rethrows and stays signed out |
| AuthStore.RegisterCorrected | store/authStore.ts:37-48 | reading `data.tokens`: success iff the response carried tokens; then they are stored and the user authenticated; a response without tokens throws a `TypeError` with the session and the exchange's store kept |
| AuthStore.Logout | store/authStore.ts:50-53 | the session is cleared iff `authApi.logout` resolves; otherwise unchanged; `isLoading` is untouched |
| AuthStore.CheckAuth | store/authStore.ts:55-80 | never throws; ends not loading and consistent; returns `isAuthenticated`; true iff a token is stored and the verify post resolved, with its user; false means fully signed out. With no token or a failed read the store is unchanged; otherwise it is what the verify exchange left: unchanged, cleared, or holding refreshed tokens |
| AuthStore.CheckAuthWithoutTokenSkipsValidation | store/authStore.ts:59-64 | with no stored access token, the backend's answers are irrelevant and the result is signed out with the store unchanged |
| AuthStore.CheckAuthSignsOutWithFreshTokens | store/authStore.ts:66-73 | an expired token whose refresh succeeds but whose resent verify is rejected ends signed out while the store holds the new access token |
| AuthStore.CheckAuthFailedRefreshClearsTokens | store/authStore.ts:66-73 | an expired token whose refresh is rejected ends signed out with both tokens deleted |
| AuthStore.Apply | store/authStore.ts:16-80 | one action with register as written or corrected: only `checkAuth` changes `isLoading`, and it always clears it; consistency is kept |
| AuthStore.Run | store/authStore.ts:16-80 | the actions applied in order, each to the session and store the previous one left; `AuthStore.RunKeepsConsistent`, `OnlyCheckAuthChangesLoading` and `LoadingEndsWithCheckAuth` state what every run keeps |
| AuthStore.RunKeepsConsistent | store/authStore.ts:16-80 | any sequence of actions keeps "signed out implies no user", with register as written and as corrected |
| AuthStore.ReachableConsistent | store/authStore.ts:17-19 | every state reachable from the initial one is consistent |
| AuthStore.OnlyCheckAuthChangesLoading | store/authStore.ts:21-53 | login, register (as written or corrected) and logout never change `isLoading` |
| AuthStore.LoadingEndsWithCheckAuth | store/authStore.ts:57-78 | after any run ending in `checkAuth`, the store is not loading |
| Routing.StoreHasOrganization | app/_layout.tsx:8 | the destructured `hasOrganization` of the real store: always `undefined`; `Routing.RootLayout` states what that implies |
| Routing.RootNavigation | app/_layout.tsx:16-33 | nothing while loading; signed out gives exactly `[/login]`; two navigations exactly when signed in with a `null` organization |
| Routing.RootNavigationCases | app/_layout.tsx:19-32 | case by case: `[/login]`, `[/organizationCreate]` for `false`, `[/organizationCreate, /panel]` for `null`, `[/panel]` otherwise |
| Routing.RootNavigationEndsAtDestination | app/_layout.tsx:20-29 | the last navigation is always the intended destination |
| Routing.RootLayout | app/_layout.tsx:8-33 | over the real store it never reaches the organization form: at most the single intended destination |
| Routing.RootEffect | app/_layout.tsx:16-33 | the effect navigates only when a dependency changed, and then as the routing function says |
| Routing.Startup | app/_layout.tsx:11-17 | app start: `checkAuth` once, the effect on the initial render and once more when it settled; `Routing.StartupRoutesOnce` states the result |
| Routing.StartupRoutesOnce | app/_layout.tsx:11-17 | at app start exactly one navigation follows `checkAuth`: `/panel` if it returned true, `/login` otherwise |
| Routing.NoNavigationWhileChecking | app/_layout.tsx:17 | while loading, the root layout issues nothing |
| Routing.AuthGuard | app/auth/_layout.tsx:11-16 | signed in gives exactly `[/dashboard/panel]`; signed out gives no navigation |
| Routing.AuthLayoutEffect | app/auth/_layout.tsx:11-16 | the guard re-runs only when `isAuthenticated` changes |
| Routing.AuthLayoutReadsOnlyAuthentication | app/auth/_layout.tsx:8 | sessions agreeing on `isAuthenticated` get the same navigations |
| Routing.DashboardGuard | app/dashboard/_layout.tsx:11-16 | signed out gives exactly `[/auth/login]`; signed in gives none |
| Routing.DashboardLayoutEffect | app/dashboard/_layout.tsx:11-16 | the guard re-runs only when `isAuthenticated` changes |
| Routing.HandleLogout | app/dashboard/_layout.tsx:18-21 | navigates to `/auth/login` iff logout resolved; a rejected logout issues nothing and keeps the session |
| Routing.LogoutThenGuardAgree | app/dashboard/_layout.tsx:11-21 | after a successful logout the guard and the button send the user to the same place |
| Routing.IndexRedirect | app/index.tsx:8-10 | exactly one redirect, `/dashboard/panel` iff signed in, `/auth/login` iff not |
| Routing.IndexAgreesWithAuthLayout | app/index.tsx:8-9 | for a signed-in user the index and the auth layout pick the same screen |
| AuthHook.RegisterCheck | hooks/useAuth.ts:7-20 | the register schema field by field, with each field's message; only a schema key can fail; `AuthHook.RegisterChecksAllPass` relates it to the schema's demands |
| AuthHook.LoginCheck | hooks/useAuth.ts:22-25 | the login schema: the email fails iff zod's email check does, the password iff it is empty; no other key fails |
| AuthHook.LoginChecksAllPass | hooks/useAuth.ts:22-25 | both login checks pass iff the email passes zod's check and the password is non-empty |
| AuthHook.RegisterChecksAllPass | hooks/useAuth.ts:7-20 | the per-field checks all pass iff the schema's demands hold: email, name ≥ 1, password ≥ 6, gender in {M,F,O}, age > 0, role in {A,E}, phone and address ≥ 1 |
| AuthHook.IssuesFor | hooks/useAuth.ts:36 | no more issues than fields, each with a one-element path naming a schema field |
| AuthHook.IssuesForOnePerField | hooks/useAuth.ts:36 | for distinct schema keys, no two issues name the same field |
| AuthHook.SchemaIssuesOnePerField | hooks/useAuth.ts:7-25 | both the register and the login schema report at most one issue per field |
| AuthHook.CollectErrors | hooks/useAuth.ts:40-44 | the `reduce` over zod's issues; `AuthHook.CollectErrorsKeys`, `CollectErrorsLastWins` and `CollectErrorsOfFields` state its keys and values |
| AuthHook.CollectErrorsKeys | hooks/useAuth.ts:40-44 | the error map has exactly one key per issue key |
| AuthHook.CollectErrorsLastWins | hooks/useAuth.ts:40-44 | a key keeps the message of the last issue with that key |
| AuthHook.CollectErrorsOfFields | hooks/useAuth.ts:36-46 | reducing a schema's issues gives one entry per failing field with its message |
| AuthHook.IssuesForEmpty | hooks/useAuth.ts:36-37 | no issue exactly when every field passes |
| AuthHook.ValidateFrom | hooks/useAuth.ts:34-48 | valid iff parsed; zod issues become the reduced map; any other exception gives `{form: 'Invalid data provided'}` |
| AuthHook.ValidateRegister | hooks/useAuth.ts:34-49 | valid iff the register schema accepts; otherwise one entry per failing field |
| AuthHook.ValidateLogin | hooks/useAuth.ts:51-66 | valid iff the email passes and the password is non-empty; otherwise one entry per failing field |
| AuthHook.Submit | hooks/useAuth.ts:68-115 | loading ends false; the API is called iff valid; success iff navigating to the success route |
| AuthHook.Register | hooks/useAuth.ts:68-91 | invalid: the field errors, "Validation failed…" and no API call; success: `/panel`; API failure: the server message, else "Registration failed" |
| AuthHook.Login | hooks/useAuth.ts:93-115 | the same shape with `/dashboard/panel` and "Login failed" |
| AuthHook.RoleOutsideEnumRejected | hooks/useAuth.ts:15-17 | a role outside {A,E} is reported under "role" with the schema's message, and no API call is made |
| RegisterForm.EmailRegexIsRule | app/auth/register.tsx:73 | `^\S+@\S+$` matches iff the text has no whitespace and an '@' that is neither first nor last |
| RegisterForm.MatchesEmailRule | app/auth/register.tsx:73 | an added decision procedure, not in the source (which uses the regular expression): a single scan that accepts exactly the texts the pattern matches |
| RegisterForm.KeepDigits | app/auth/register.tsx:123 | the filtered age text is all digits and no longer than the input |
| RegisterForm.KeepDigitsOfDigits | app/auth/register.tsx:123 | digit-only text passes unchanged |
| RegisterForm.KeepDigitsIdempotent | app/auth/register.tsx:123 | filtering twice is filtering once |
| RegisterForm.KeepDigitsAppend | app/auth/register.tsx:123 | the filter distributes over concatenation, so digits keep their order |
| RegisterForm.KeepDigitsCounts | app/auth/register.tsx:123 | each digit is kept as often as it occurs; no other character is kept |
| RegisterForm.EditAge | app/auth/register.tsx:123 | typing into the age input changes only the age, which is then all digits |
| RegisterForm.RulesPass | app/auth/register.tsx:53-158 | the form's own rules: name, email, password, age, phone and address required; the email pattern; password of 6 or more; age of at least 1; `RegisterForm.Submit` and `RulesCoverHookLengths` state their effect |
| RegisterForm.ToValues | app/auth/register.tsx:38 | `{...data, age: Number(data.age)}`; `RegisterForm.AgeRoundTrip` states that a typed number arrives as that number |
| RegisterForm.AgeRoundTrip | app/auth/register.tsx:38 | typed decimal text reaches the hook as its number; all other fields are copied unchanged |
| RegisterForm.Submit | app/auth/register.tsx:36-43 | `onSubmit` runs iff the rules pass, and then calls the hook with the converted values; server errors are kept only after a failure that carries errors |
| RegisterForm.RulesCoverHookLengths | app/auth/register.tsx:53-158 | values passing the form's rules meet the hook's length and age demands |
| RegisterForm.UserRoleNeverRegisters | app/auth/register.tsx:30 | with role 'U', submitting never calls the API and shows the role message |
| RegisterForm.DefaultsRejected | app/auth/register.tsx:24-33 | the default form fails the rules (no name), has age 18 and a role outside {A,E} |
| JoinCodes.GetCodes | hooks/useJoinCode.ts:46-59 | success replaces the list; failure keeps it and sets "Failed to fetch codes"; never throws; not loading afterwards |
| JoinCodes.GenerateCode | hooks/useJoinCode.ts:29-44 | success refreshes the list and returns the API response; failure sets "Failed to generate code", rethrows and fetches nothing |
| JoinCodes.MarkUsed | hooks/useJoinCode.ts:68-70 | same length; matching entries are used with `usedAt = now`; others are unchanged |
| JoinCodes.MarkUsedTwice | hooks/useJoinCode.ts:68-70 | marking twice gives the same `used` flags as once and changes nothing but `usedAt` |
| JoinCodes.MarkUsedMarksAll | hooks/useJoinCode.ts:68-70 | ids and codes stay in place; an entry is used afterwards iff it was used before or matches |
| JoinCodes.UseCode | hooks/useJoinCode.ts:61-76 | success marks the matching entries; failure keeps the list and sets "Failed to use join code"; never throws |
| JoinCodes.ExpireCode | hooks/useJoinCode.ts:78-91 | success refreshes the list; failure keeps it and sets "Failed to expire join code"; never throws |
| JoinCodes.RefreshFailureSurfaces | hooks/useJoinCode.ts:33-43 | a successful generate whose refresh fails still returns the response, yet shows "Failed to fetch codes" |
| JoinCodes.EveryOperationSettles | hooks/useJoinCode.ts:29-91 | every operation ends not loading; only `generateCode` throws; an error is shown only if one of the operation's own calls failed |
| EmployeeData.FetchData | hooks/useEmployeeData.ts:62-103 | skipped: only `loading` clears. Otherwise it ends not loading, without error iff every call resolved, and then the fields form the backend's id chain |
| EmployeeData.FailureKeepsLaterFields | hooks/useEmployeeData.ts:74-99 | a failing step keeps its own and later fields as they were; earlier steps' fields hold what they returned |
| EmployeeData.ExposedLoadingAfterRun | hooks/useEmployeeData.ts:105-114 | once the effect runs have finished, the hook reports loading exactly while the store is loading |
| EmployeeData.AuthLoadingDominates | hooks/useEmployeeData.ts:64-67 | while the store loads, the hook reports loading and a fetch changes nothing but its own flag |
| EmployeeData.NeverFetchesWithoutOrganizationField | hooks/useEmployeeData.ts:54-67 | over the real store (no `hasOrganization`), the hook keeps its initial data and only stops loading |
| EmployeeData.Refetch | hooks/useEmployeeData.ts:105-107 | after at least one effect run the hook is not loading; with none it is unchanged |
| EmployeeData.LastSuccessfulFetchWins | hooks/useEmployeeData.ts:105-107 | a final successful run leaves no error and the full chain, whatever earlier runs left |
| AddFacilityModal.MissingRequired | components/AddFacilityModal.tsx:42-45 | the required-field guard (name, address or capacity empty); `AddFacilityModal.HandleSubmit` and `SecondPressAlerts` state its effect |
| AddFacilityModal.Payload | components/AddFacilityModal.tsx:49-56 | name, type and address pass through; capacity is `parseInt`; an empty optional field is `undefined` and any other passes through |
| AddFacilityModal.HandleSubmit | components/AddFacilityModal.tsx:41-67 | alerts iff a required field is empty, and then changes nothing; otherwise sends the payload; resolved: reset to '' and 'recycling'; rejected: no reset and it rethrows; never left loading |
| AddFacilityModal.SubmittedPayloadHasRequired | components/AddFacilityModal.tsx:42-53 | a sent payload has a name and an address; its capacity is NaN exactly when the text does not start with a digit |
| AddFacilityModal.CapacityIsLeadingNumber | components/AddFacilityModal.tsx:53 | capacity text `digits + rest` is sent as the digits' value |
| AddFacilityModal.SecondPressAlerts | components/AddFacilityModal.tsx:57-63 | after a successful submit a second press alerts and submits nothing |
| FacilityDetailsModal.FormOf | components/FacilityDetailsModal.tsx:201-208 | a facility's form reads back as the facility: its capacity text parses to the capacity; it passes the required-field guard iff the facility has a name and an address, and its payload is then the facility's own |
| FacilityDetailsModal.Mount | components/FacilityDetailsModal.tsx:45-54 | on mount: not editing or loading; the facility's form, or the empty form with 'recycling' when there is none |
| FacilityDetailsModal.HandleUpdate | components/FacilityDetailsModal.tsx:56-79 | no facility: no-op; an empty required field alerts; otherwise sends `{id, payload}`, leaves edit mode iff it resolved, and is never left loading |
| FacilityDetailsModal.StartEditing | components/FacilityDetailsModal.tsx:230 | the Edit button enters edit mode and keeps the form |
| FacilityDetailsModal.Cancel | components/FacilityDetailsModal.tsx:199-209 | cancel leaves edit mode and restores every field from the facility |
| FacilityDetailsModal.SelectType | components/FacilityDetailsModal.tsx:131-145 | the type changes only while editing |
| FacilityDetailsModal.EditField | components/FacilityDetailsModal.tsx:118-190 | outside edit mode nothing changes; while editing, the chosen field becomes the typed text and every other field, the type and the flags are kept |
| FacilityDetailsModal.HandleDelete | components/FacilityDetailsModal.tsx:81-99 | `onDelete(facility.id)` iff a facility is shown and the user confirmed |
| FacilityDetailsModal.CancelThenSaveRoundTrip | components/FacilityDetailsModal.tsx:199-209 | cancelling then saving sends the facility itself back, capacity included |
| FacilityDetailsModal.MountThenSaveRoundTrip | components/FacilityDetailsModal.tsx:47-74 | a modal first mounted with a facility, saved without edits, sends that facility back |
| FacilityDetailsModal.SelectionNeverSeedsForm | components/FacilityDetailsModal.tsx:47-62 | the screen's modal, mounted before any selection, alerts instead of saving the selected facility unedited |
| FacilityDetailsModal.StaleFormSave | components/FacilityDetailsModal.tsx:56-74 | after Cancel restored facility a, saving with facility b selected sends b's id with a's values |
| FacilityDetailsModal.StaleFormDeleteFollowsSelection | components/FacilityDetailsModal.tsx:81-99 | in the stale-form situation a confirmed delete targets the selected facility while the save sends another facility's values under its id |
| FacilityDetailsModal.SyncFromFacility | components/FacilityDetailsModal.tsx:47-54 | the intended seeding: each facility handed to the modal fills the form with its values, keeping the flags |
| FacilityDetailsModal.SyncedSaveRoundTrip | components/FacilityDetailsModal.tsx:56-74 | with the form synced, an unedited save sends the selected facility back, or alerts when it lacks a name or address |
| FacilityDetailsModal.EmptyNameBlocksSave | components/FacilityDetailsModal.tsx:59-62 | a facility with an empty name or address cannot be saved back as is |
| FacilityDetailsModal.ReadOnlyUntilEdit | components/FacilityDetailsModal.tsx:120-190 | outside edit mode no input changes the form |
| AddTruckModal.Payload | components/AddTruckModal.tsx:36-42 | `car_type` is always 'truck'; capacity is `parseInt` or 0; plate, status and location pass through |
| AddTruckModal.HandleSubmit | components/AddTruckModal.tsx:35-49 | the payload is always sent with no validation, then the form resets and `onClose` is called |
| AddTruckModal.SelectStatus | components/AddTruckModal.tsx:105-112 | a status press sets one of 'active', 'maintenance', 'inactive' |
| AddTruckModal.CapacityFallsBackToZero | components/AddTruckModal.tsx:39 | an empty capacity is sent as 0, and a number's text as the number |
| AddTruckModal.EmptyFormPayload | components/AddTruckModal.tsx:30-33 | the initial form sends status 'active', empty text and capacity 0 |
| TruckDetailsModal.FormOf | components/TruckDetailsModal.tsx:51-54 | a truck's form sends the truck's own plate, status and location, type 'truck' and its capacity text read by `parseInt`, or 0 when that gives NaN |
| TruckDetailsModal.SyncFromTruck | components/TruckDetailsModal.tsx:49-56 | a non-null truck overwrites the four fields; a null one changes nothing |
| TruckDetailsModal.HandleUpdate | components/TruckDetailsModal.tsx:58-70 | no truck: no-op; otherwise sends `{id: truck.id, payload}` unchecked and leaves edit mode |
| TruckDetailsModal.Cancel | components/TruckDetailsModal.tsx:118-126 | both cancel buttons leave edit mode and restore the truck's four fields |
| TruckDetailsModal.StartEditing | components/TruckDetailsModal.tsx:111 | the Edit buttons enter edit mode and keep the form |
| TruckDetailsModal.SelectStatus | components/TruckDetailsModal.tsx:188-189 | the status changes only while editing |
| TruckDetailsModal.EditField | components/TruckDetailsModal.tsx:148-173 | outside edit mode nothing changes; while editing, the chosen field becomes the typed text, the other fields are kept, and the status never changes |
| TruckDetailsModal.HandleDelete | components/TruckDetailsModal.tsx:72-93 | a confirmed delete calls `onDelete(truck.id)` then `onClose`; otherwise nothing |
| TruckDetailsModal.UpdateForgetsCarType | components/TruckDetailsModal.tsx:64 | an update always sends 'truck', whatever the truck's type |
| TruckDetailsModal.DeleteAndUpdateAgreeOnTruck | components/TruckDetailsModal.tsx:58-93 | a confirmed delete and a save address the shown truck's id; only the delete closes the modal |
| TruckDetailsModal.CancelUndoesEdits | components/TruckDetailsModal.tsx:118-126 | editing then cancelling returns to the shown truck's state |
| TruckDetailsModal.SaveUneditedRoundTrip | components/TruckDetailsModal.tsx:49-68 | opening a truck and saving without edits sends its own values, with the capacity text's number |

## Left out

- The domain HTTP clients (organization, teams, human resources, shifts) are left out. They are endpoint wrappers; their calls appear only as abstract outcomes.
- The thin hooks (`useFacility`, `useTruck`, `useOrganization`, `useEmployment`) are left out. They only wrap network calls.
- Rendering, styles, modal visibility, keyboard handling and the loading spinner are left out. They are presentation.
- Async interleavings, React state batching and effect scheduling are left out. Each operation is one atomic sequence of steps.
- expo-secure-store is a foreign library, so its behaviour is an assumption. Its `setItemAsync` is taken to reject a non-string value such as `undefined`, and it is modelled as a map.
- Secure-store reads are taken to succeed, except the one in `checkAuth` (store/authStore.ts:59), whose failure is the parameter `readFails`. A failing read in `validateToken` (services/api/auth.ts:124, caught and reported as `valid: false`) and in the request interceptor (services/api/auth.ts:28) is not modelled.
- String lengths count characters, not UTF-16 code units. This applies to every length rule: the zod `min` checks in `AuthHook.RegisterCheck` and `AuthHook.LoginCheck`, and the password `minLength` in `RegisterForm.RulesPass`.
- Console logging is left out, along with axios internals and the `api.defaults` header mutation.
- AuthApi.Execute: request bodies are not modelled. The backend answers by path, headers and the `_retry` mark, and `api.defaults` is not tracked.
- Numbers.ParseInt: only the decimal subset of `parseInt` is modelled. Leading whitespace, a sign, hex prefixes, fractions and values past 2^53 are left out.
- RegisterForm.RulesPass: the age field is modelled as digit text, since the input only ever holds filtered text or the default 18. Non-integer ages cannot arise there.
- AuthHook.RegisterCheck: zod's `.email()` is the parameter `isEmail`, since its regular expression lives in the library; the same holds for `AuthHook.LoginCheck`.
- FacilityDetailsModal.FormOf: the facility's capacity is a natural number. Negative or fractional capacities from the backend are not modelled.
- JoinCodes.UseCode: dates are abstract integer timestamps, and `new Date()` is the parameter `now`.
- EmployeeData.FetchData: each backend call is a function of the id it is handed. Retries, caching and response shapes beyond the ids read are not modelled.

## Findings

| source | as written | input that shows it | evidently intended | confidence | as-written member | corrected member |
|---|---|---|---|---|---|---|
| app/(dashboard)/facilities.tsx:127-136 | the screen renders one `FacilityDetailsModal` from its first render with `selectedFacility` null; the modal seeds its form only in the `useState` initializer (components/FacilityDetailsModal.tsx:47-54), so a selected facility never reaches the form | select any facility with a name and an address, press Edit and Save without typing: the guard alerts "Please fill in all required fields"; after a Cancel on facility a, saving with b selected sends b's id with a's values | re-seed the form whenever `facility` changes, as the vehicle details modal's effect does | high, not executed | FacilityDetailsModal.SelectionNeverSeedsForm | FacilityDetailsModal.SyncedSaveRoundTrip |
| store/authStore.ts:40-41 | `register` stores `data.accessToken` and `data.refreshToken`, but `authApi.register` returns `{user, tokens: {access, refresh}}` for a response that carries tokens (services/api/auth.ts:112) | a register response with non-empty `access` and `refresh`: `setItemAsync('accessToken', undefined)` rejects, so the store rethrows and stays signed out although the tokens were saved | read `data.tokens.access` and `data.tokens.refresh`, as `login` does, and become authenticated | medium, not executed | AuthStore.RegisterDropsIssuedTokens | AuthStore.RegisterCorrected |
