# To-do client: session and filter logic in Dafny

A Dafny model of the decision logic inside a React to-do client (TypeScript). The client logs a user
in or registers them against a remote API, keeps the session in `localStorage`, guards the task
pages, and lists tasks filtered by status and paginated. Most of that repository is markup. This
project models the small pure decisions buried in it:

- **HTTP client** (`src/services/api.ts`): shaping the `getTasks` query (`status`, `page`, `limit`)
  and its `paramsSerializer`; the request interceptor's `Authorization: Bearer …` header, including
  the unwrapping of a JSON-quoted stored token; the response interceptor's 401 handling, which clears
  `token`/`user` and redirects to `/login`.
- **Filter binding** (`useTaskFilters`): the `status` URL search parameter is parsed into
  `all | pending | completed` and written back.
- **Route guard** (`ProtectedRoute`): permit only when the store holds a non-empty `token` and `user`.
- **Forms**: `Login`, `Register` and `TaskForm` validation, submission, keyword-based placement of
  server error messages, and per-field error clearing on edit.
- **Session hook** (`useAuth`): token, user, the derived `isAuthenticated`, the two flows' errors and
  pending flags, and logout.

Layout, one module per concern: `Wrappers` (Option), `Types` (the API records), `Text` (JavaScript
white space, `trim`, `includes`, `toLowerCase`), `JsNumbers` (finite, NaN and infinite numbers, and
decimal printing), `QueryText` (`join`/`split`), `EmailPattern` (the meaning of `/\S+@\S+\.\S+/.test`),
`FormRules` (the email and password rules both auth forms use), `Api`, `TaskFilters`, `RouteGuard`,
`LoginForm`, `RegisterForm`, `TaskEditor` (the task form) and `Session`.

Several modelling choices follow from this:
- Storage and URL search parameters are maps.
- React state updates are pure functions from the old state to the new one.
- A `useEffect` is applied as a further function after the handler that triggered it.
- Navigation and header writes become returned values, such as a redirect flag, a route, or an optional header.

What the code does that a reader may not expect:
- The route guard and the session flag need a non-empty token, not just a present one. JavaScript truthiness treats `""` as absent.
- Login's mount-time redirect reads the store with no `try`, unlike the guard. The model gives it the store's entries only.
- No guard against stale list responses exists in the client code; cache behaviour is left to the query library.

## Model

| member | source | states |
|---|---|---|
| Types.StatusNameRoundTrip | src/types/index.ts:45 | each status is recovered from its wire spelling, and exactly `all`, `pending`, `completed` name a status |
| Api.PageParam | src/services/api.ts:95-100 | a finite page `p` is sent as `max(1, floor p)`, NaN and +∞ are dropped, −∞ becomes 1; a sent page is always ≥ 1 |
| Api.LimitParam | src/services/api.ts:103-108 | a finite limit `l` is sent as `min(100, max(1, floor l))`, NaN is dropped, +∞ becomes 100, −∞ becomes 1; a sent limit lies in [1, 100] |
| Api.ShapeQuery | src/services/api.ts:86-109 | `status` is present iff the request asks for `pending` or `completed`; `page`/`limit` are present iff given and not dropped by the coercion; no params object yields no keys |
| Api.EntriesNeedNoEncoding | src/services/api.ts:116-119 | every key and value the serializer meets consists of characters `encodeURIComponent` leaves unchanged |
| Api.SerializeParams | src/services/api.ts:114-123 | the query string is empty iff no key is present; otherwise it has no `&` at either end, holds one `&` fewer than keys, and a server splitting on `&` and `=` reads back exactly the keys and printed values, in order status, page, limit |
| Api.TaskListQueryString | src/services/api.ts:86-123 | without params the query string is empty; in every case it parses back to the shaped parameters |
| JsNumbers.NatToStringRoundTrip | src/services/api.ts:119 | the decimal text a number is printed as reads back as that number |
| QueryText.JoinCount | src/services/api.ts:122 | joining separator-free parts puts exactly one separator per gap |
| QueryText.SplitJoin | src/services/api.ts:122 | splitting a join of separator-free parts gives the parts back |
| Api.UnwrapStoredToken | src/services/api.ts:31-36 | the token used is either the stored text or the text whose JSON string literal was stored |
| Api.AuthorizationHeader | src/services/api.ts:28-38 | no header is added iff the stored token is absent or empty |
| Api.QuotedTokenUnwrapped | src/services/api.ts:28-37 | a token stored as a JSON string literal (no escapes) yields `Bearer <inner text>` |
| Api.RawTokenSentAsStored | src/services/api.ts:31-37 | a stored token of JWT characters (`A-Z a-z 0-9 - _ .`) opening with a letter yields `Bearer <stored text>`, whether `JSON.parse` rejects it or reads `true`, `false` or `null` |
| Api.OnResponseError | src/services/api.ts:47-64 | the error is always rejected unchanged; `token` and `user` are removed iff the status is 401 and the URL contains neither `/login` nor `/register`, and otherwise the store is exactly unchanged; when they are removed no other key changes; redirect to `/login` iff the session was cleared and the current path is neither `/login` nor `/register` |
| Api.RedirectFiresOnce | src/services/api.ts:50-61 | on the login page a rejection never redirects, so the handling does not loop; a rejection after the store was cleared leaves it cleared |
| Api.ConcurrentUnauthorizedRedirectsAgain | src/services/api.ts:50-61 | there is no once-guard: a second non-auth 401 handled before the pathname has changed redirects again |
| Text.TrimEmptyIffAllSpace | src/components/tasks/TaskForm.tsx:35 | `!s.trim()` holds exactly when every character is JavaScript white space |
| Text.ContainsIffOccurs | src/services/api.ts:53 | `includes` holds exactly when the text occurs at some position |
| Text.ContainsAnyIffSome | src/components/auth/Login.tsx:30 | a chain of `includes` joined by `\|\|` holds exactly when some keyword occurs |
| EmailPattern.FoundIffTest | src/components/auth/Login.tsx:58 | the position search the model runs agrees with the unanchored regular expression `\S+@\S+\.\S+` on every string |
| FormRules.EmailError | src/components/auth/Login.tsx:56-60 | empty email: required message; non-empty without a substring matching the pattern: invalid message; otherwise no error |
| FormRules.PasswordError | src/components/auth/Login.tsx:62-66 | empty: required; non-empty with fewer than 6 UTF-16 code units: too short; 6 code units or more: no error |
| FormRules.AstralPasswordLength | src/components/auth/Register.tsx:90-94 | three characters outside the Basic Multilingual Plane count as six code units, so such a password passes the length rule |
| Text.Utf16Length | src/components/auth/Login.tsx:64 | `length` counts code units: between the character count and twice it, equal to the character count iff no character is astral, twice it iff all are |
| Text.Utf16LengthAppend | src/components/auth/Register.tsx:92 | the code-unit length of a concatenation is the sum of the parts' lengths |
| RouteGuard.Guard | src/components/routes/ProtectedRoute.tsx:11-25 | children are rendered, unchanged, iff the store is readable and holds non-empty `token` and `user`; otherwise navigate to `/login` replacing history |
| RouteGuard.GuardReadsOnlySession | src/components/routes/ProtectedRoute.tsx:13-15 | two stores that agree on `token` and `user` get the same decision |
| LoginForm.Validate | src/components/auth/Login.tsx:53-70 | there are no errors iff the email is non-empty and matches the pattern and the password has at least 6 UTF-16 code units |
| LoginForm.Submit | src/components/auth/Login.tsx:72-80 | the errors become `validate`'s; `login` is called iff valid, with the form data verbatim; the data is unchanged |
| LoginForm.ClassifyServerError | src/components/auth/Login.tsx:29-37 | a message goes to email iff its lower-case form mentions no password keyword and some email keyword; otherwise to password |
| LoginForm.ShowServerError | src/components/auth/Login.tsx:26-39 | a truthy server message lands on exactly the classified field and the other field keeps its error; no message changes nothing |
| LoginForm.PasswordKeywordWins | src/components/auth/Login.tsx:30-31 | any message mentioning a password keyword goes to password, whatever else it mentions |
| LoginForm.InvalidEmailMessageGoesToPassword | src/components/auth/Login.tsx:29-31 | the server message `Email inválido` is shown under the password field |
| LoginForm.Edit | src/components/auth/Login.tsx:42-51 | editing stores the value in that field only, leaves that field's error not truthy, and keeps the other field's error |
| LoginForm.MountRedirectMatchesGuard | src/components/auth/Login.tsx:11-17 | the login page leaves for `/tasks` exactly when the route guard would permit |
| RegisterForm.Validate | src/components/auth/Register.tsx:72-102 | blank name (all white space): name required; email and password as in login; mismatch message iff password ≠ confirmation, independent of the rest |
| RegisterForm.Submit | src/components/auth/Register.tsx:104-113 | `register` is called iff name non-blank, email valid, password of at least 6 UTF-16 code units and equal to its confirmation, with exactly name, email and password, untrimmed |
| RegisterForm.ClassifyServerError | src/components/auth/Register.tsx:25-36 | email keywords win; else password keywords; else name keywords; else email; never the confirmation field |
| RegisterForm.ShowServerError | src/components/auth/Register.tsx:23-38 | a truthy server message lands on the classified field and every other field keeps its error |
| RegisterForm.FormsDisagreeOnEmailAndPassword | src/components/auth/Register.tsx:27-30 | a message mentioning both `email` and `password` goes to email here but to password on the login form |
| RegisterForm.ErrorUpdatersCommute | src/components/auth/Register.tsx:41-70 | the mismatch-clearing updater and the field-clearing updater give the same result in either order |
| RegisterForm.Edit | src/components/auth/Register.tsx:41-70 | the value lands in the edited field only; that field's error is no longer truthy; other errors are kept except that the confirmation error changes on a password edit iff it was the mismatch message and the passwords now agree and are non-empty |
| TaskEditor.Load | src/components/tasks/TaskForm.tsx:20-30 | loading a task copies its title and its description (`''` when absent); no task resets to empty; errors are cleared |
| TaskEditor.Validate | src/components/tasks/TaskForm.tsx:32-41 | a title error iff the title is all white space; the description never errs |
| TaskEditor.Submit | src/components/tasks/TaskForm.tsx:43-51 | `onSubmit` receives the data verbatim iff the title is not blank; then create mode resets the form and edit mode keeps it; an invalid submit keeps the data |
| TaskEditor.Edit | src/components/tasks/TaskForm.tsx:53-59 | editing stores the value in that field and clears only that field's error |
| TaskEditor.LoadedTaskSubmitsItself | src/components/tasks/TaskForm.tsx:20-46 | a task loaded for editing with a non-blank title submits its own title and description |
| TaskEditor.CreateModeResetBlocksResubmit | src/components/tasks/TaskForm.tsx:45-49 | after a successful create, submitting the reset form again is refused |
| TaskFilters.ParseStatus | src/hooks/useTaskFilters.ts:7-12 | the filter is the parameter's status when it spells one, and `all` when it is absent or spells none |
| TaskFilters.WriteStatus | src/hooks/useTaskFilters.ts:14-21 | `all` deletes `status`, another status sets it to its name; every other parameter is unchanged |
| TaskFilters.WriteThenParse | src/hooks/useTaskFilters.ts:7-19 | parsing what was written gives the written status |
| TaskFilters.WriteIdempotent | src/hooks/useTaskFilters.ts:15-19 | writing a status twice equals writing it once |
| TaskFilters.ChangeStatus | src/hooks/useTaskFilters.ts:14-25 | after `changeStatus` the filter and the URL agree on the new status and no other parameter changes |
| TaskFilters.InvalidStatusNormalised | src/hooks/useTaskFilters.ts:7-20 | an unknown `status` value mounts as `all` and is deleted from the URL |
| TaskFilters.Mount | src/hooks/useTaskFilters.ts:7-21 | after mounting, `status` is in the URL iff the filter is not `all`, and then holds the parameter's original, valid value; a valid parameter is kept as the filter; every other parameter is unchanged |
| TaskFilters.MountIsStable | src/hooks/useTaskFilters.ts:7-21 | mounting again at the URL the hook wrote gives the same state |
| Session.Init | src/hooks/useAuth.ts:12-16 | the first render's flag agrees with `!!token && !!user`, and nothing is loading or failed |
| Session.LoadingTracksMutations | src/hooks/useAuth.ts:94 | `isLoading` is raised by starting either call, and after one call settles it stays raised iff the other call is still pending; logout leaves it as it was |
| Session.ErrorMessage | src/hooks/useAuth.ts:37-41 | the message is the first truthy of server message, `error.message` and fallback, hence never empty |
| Session.Step | src/hooks/useAuth.ts:18-85 | calling a flow clears its error and sets it pending; success stores the response's token and user and authenticates iff the token is non-empty; failure records the fallback-chain message; logout clears token, user and cache |
| Session.StepKeepsConsistent | src/hooks/useAuth.ts:14-20 | after every transition `isAuthenticated == (!!token && !!user)` |
| Session.FlowsIndependent | src/hooks/useAuth.ts:75-85 | the login flow never touches the register error or pending flag, nor the register flow the login ones |
| Session.FailureKeepsSession | src/hooks/useAuth.ts:37-62 | a failed login or registration leaves token, user and flag unchanged |
| Session.SuccessFlagMatchesEffect | src/hooks/useAuth.ts:18-30 | the handler's explicit `setIsAuthenticated(true)` agrees with the effect when the token is non-empty; for an empty token the effect turns it false |
| Session.LogoutIdempotent | src/hooks/useAuth.ts:66-73 | logging out twice equals logging out once |
| Session.LoginAuthenticates | src/hooks/useAuth.ts:24-30 | calling login and then succeeding with a non-empty token authenticates with the response's token and user, with no login error; loading then remains only if a registration is pending |

## Left out

- The HTTP transport and the API calls `login`, `register`, `getTaskById`, `createTask`, `updateTask`, `deleteTask` and `toggleTaskStatus`: these are thin axios wrappers with no decisions of their own.
- The task query cache (`src/hooks/useTasks.ts`): caching, de-duplication and invalidation are react-query library behaviour. The only part modelled is that logout empties the cache.
- `useLocalStorage` is not part of this model. The store is a map from keys to the stored text, and how the hook serialises `null` is not modelled.
- Api.UnwrapStoredToken: only a JSON string literal with no escapes, no control characters and no surrounding white space is unwrapped. Any other stored text is used as stored. For JSON escapes, padded literals and non-canonical numbers this is weaker than the real `JSON.parse`. A stored JSON object or array such as `{"a":1}` is sent by the code as `Bearer [object Object]` (or the array's comma-joined text); the model sends the stored text.
- Api.PageParam: numbers are reals, not IEEE-754 doubles. A page of 10^21 or more is printed in decimal, whereas JavaScript prints it in exponent form.
- Api.SerializeParams: the serializer's skip of `undefined`/`null` values is not modelled, because `getTasks` never stores such a value.
- `encodeURIComponent` is not modelled as a function. Api.EntriesNeedNoEncoding proves it is the identity on every value that occurs.
- Text.LowerChar: `toLowerCase` is modelled only for ASCII and the Latin-1 capitals (which covers the accented keywords). Other Unicode case mappings are not modelled.
- `IsSpace` follows JavaScript's fixed WhiteSpace and LineTerminator set.
- URL search parameters are a map, so duplicate keys in `URLSearchParams` are not modelled.
- `window.location`, `navigate` and `Navigate` are modelled only as the decision they carry. The `{ replace: true }` flag the filter hook passes to `setSearchParams` is not carried by TaskFilters.ChangeStatus; the route guard's `replace` is.
- Api.RedirectFiresOnce: it covers only rejections handled after the navigation to `/login` has landed. Assigning `window.location.href` does not change the pathname until the new page loads, so concurrent 401s handled before then each redirect (Api.ConcurrentUnauthorizedRedirectsAgain).
- Not modelled at all: the 100 ms delay before navigating after login, toasts, and React's rendering and effect scheduling. For the two error updaters in `Register.handleInputChange`, RegisterForm.ErrorUpdatersCommute shows that their order does not matter.
- Presentational components (Input, Checkbox, Alert, Card, Layout, TaskList, TaskItem, TaskFilters) and the TasksPage wiring carry no decisions and are not modelled.
