# UBB event portal front-end: authentication and page-state rules in Dafny

This project models the logic of a React single-page front-end for a university event
portal. It covers the parts of the front-end that decide something:

- how the access token is read: which segment of the JWT is decoded, and which claims
  give the user id and the role;
- how the shared axios instance signs requests and reacts to a 401;
- what logging out does to `localStorage`;
- the checks, request bodies, token writes and error messages of the login and
  registration page;
- how the ticket page splits tickets into open and closed lists and closes one;
- the friend-suggestion search and the answers to pending friend requests;
- the route guard of the application shell.

Pure code (claim extraction, filters, the route guard) is modelled as functions and
lemmas. The browser (`localStorage`, `window.location`) is the class `Browser.Window`.
Each page with React state is a class whose methods are its handlers.

The code has no token renewal, no refresh endpoint and no queue of pending requests.
On a 401, the response interceptor removes both tokens, goes to `/` unless the page is
already there, and rejects the error again. The model follows that code. It has no
renewal mechanism.

Modules, one per file:

- `Wrappers`: `Option`.
- `Js`: JavaScript values, truthiness, `||` chains, property reads and `String()` coercion.
- `JsStrings`: `split`, `includes` and ASCII `toLowerCase`.
- `Seqs`: `Array.prototype.filter` and subsequences.
- `Http`: requests, responses, errors and call outcomes.
- `Browser`: `localStorage` and the window location.
- `Jwt`: `src/utils/auth.js`.
- `Interceptors`: `src/services/axiosInstance.js`.
- `AuthService`: `src/services/authService.js`.
- `Authentication`: `src/pages/AuthPage.jsx`.
- `Tickets`: `src/pages/TicketsPage.jsx`.
- `Friends`: `src/pages/FriendsPage.jsx`.
- `Routes`: `src/App.jsx`.

Behaviours of the code that the model keeps, and that are easy to miss:

- With no `.` in the token, `split('.')[1]` is `undefined`. `atob` turns it into the
  string `"undefined"` and rejects those nine characters, so `parseJwt` returns `null`.
  The model passes that string on as the code does, and requires the `atob` it is
  given to reject it.
- `localStorage.setItem` stores `String(value)`. A login answer without `accessToken`
  therefore stores `"undefined"`, and the route guard treats that as signed in.
- Reading a field of a `null` body or list element throws a TypeError inside the
  `try`. The `catch` block sees an error without `response` and shows the connection
  message, or empties the ticket lists.
- `authService.login`, `register` and `logout` call plain axios, not the intercepted
  instance. A 401 from them never clears the store.
- `TicketsPage` calls `ticketService.getAllTickets`, which `src/services/ticketService.js`
  does not define. As shipped, that call throws and `load` always takes its `catch`
  path. The model takes the fetch outcome as a parameter, so it covers both paths.

## Model

| member | source | states |
|---|---|---|
| `Js.Member` | src/pages/TicketsPage.jsx:314-315 | a property read throws exactly on `null`/`undefined`, and otherwise yields the property or `undefined` |
| `Js.Truthy` | src/utils/auth.js:2 | ToBoolean: `false`, `0`, `""`, `null` and `undefined` are falsy, everything else truthy; `null` and `undefined` are never truthy |
| `Js.Or` | src/utils/auth.js:12 | `a \|\| b` is one of its operands, and it is truthy exactly when one of them is |
| `Js.Get` | src/utils/auth.js:12 | `payload?.key` yields an object's own property and `undefined` for a missing key or a non-object |
| `Js.NatToString` | src/pages/AuthPage.jsx:61-62 | `String(n)` of a natural number is a run of decimal digits without a leading zero |
| `Js.NatToStringValue` | src/pages/AuthPage.jsx:61-62 | the digits `String(n)` writes denote `n` |
| `Js.ToJsString` | src/pages/AuthPage.jsx:61-62 | `String()` gives a string as it is, `"undefined"`, `"null"`, `"true"`/`"false"`, the decimal digits of a number (with `-` when negative), `"[object Object]"` for an object, `""` for an empty array, and for a non-empty array its element strings joined by `,` |
| `Js.JoinElements` | src/pages/AuthPage.jsx:61-62 | the comma scan over the elements from index `i` on is `Join` of their element strings (`""` for `null`/`undefined`, `String()` otherwise), and `""` past the end |
| `Js.FirstTruthyUnique` | src/utils/auth.js:12 | the first-truthy characterisation fixes the value of a `\|\|` chain, so the `FirstTruthy` ensures of the claim chains determine the id and the role |
| `Js.OrChainIsFirstTruthy` | src/utils/auth.js:12 | an `a \|\| b \|\| ... \|\| z` chain yields its first truthy operand, or the last operand when all earlier ones are falsy |
| `JsStrings.JoinSplit` | src/utils/auth.js:4 | `split` loses nothing: joining the pieces with the separator gives back the token |
| `JsStrings.SplitPiecesFree` | src/utils/auth.js:4 | no piece of `split('.')` contains a `.` |
| `JsStrings.SplitHasSecond` | src/utils/auth.js:4 | `split('.')` has an element `[1]` exactly when the token contains a `.` |
| `JsStrings.SplitSecondPiece` | src/utils/auth.js:4 | the first piece is the text before the first `.`; the remaining pieces are the split of the text after it |
| `JsStrings.SplitFirstPiece` | src/utils/auth.js:4 | the first piece is a `.`-free prefix that ends at the first `.` or at the end |
| `JsStrings.Split` | src/utils/auth.js:4 | `split` always yields at least one piece |
| `JsStrings.Includes` | src/pages/FriendsPage.jsx:71-74 | a string includes only queries no longer than itself |
| `JsStrings.IncludesIffOccurs` | src/pages/FriendsPage.jsx:71-74 | `includes` holds exactly when the query occurs at some position of the text |
| `JsStrings.IncludesEmpty` | src/pages/FriendsPage.jsx:71-74 | the empty query is included in every text |
| `JsStrings.LowerChar` | src/pages/FriendsPage.jsx:72-74 | an upper-case ASCII letter maps to the lower-case letter 32 code points above it; every other character is unchanged; no upper-case letter comes out |
| `JsStrings.Lower` | src/pages/FriendsPage.jsx:72-74 | lower-casing keeps the length and maps each character by `LowerChar` |
| `JsStrings.LowerIdempotent` | src/pages/FriendsPage.jsx:72-74 | lower-casing twice equals lower-casing once |
| `Seqs.Filter` | src/pages/TicketsPage.jsx:314 | a filter never lengthens its input |
| `Seqs.FilterIsSubsequence` | src/pages/TicketsPage.jsx:314-315 | a filter's result is an order-preserving subsequence of its input |
| `Seqs.FilterMembership` | src/pages/FriendsPage.jsx:69 | an element is kept exactly when it is in the input and satisfies the predicate |
| `Seqs.FilterCount` | src/pages/TicketsPage.jsx:314-315 | a kept element occurs as often as in the input; a dropped one does not occur |
| `Seqs.FilterKeepsAll` | src/pages/FriendsPage.jsx:69-75 | when every element satisfies the predicate, the filter returns its input |
| `Seqs.FilterDisjoint` | src/pages/TicketsPage.jsx:314-315 | filters by two mutually exclusive predicates share no element |
| `Http.HasStatus` | src/pages/AuthPage.jsx:68 | `err.response && err.response.status === s`: there is a response and it has that status |
| `Http.ApiUrl` | src/services/axiosInstance.js:3 | a set, non-empty `VITE_API_URL` is the base URL; otherwise `http://localhost:8080` |
| `Browser.GetItem` | src/services/axiosInstance.js:10 | `getItem` yields a value exactly for a stored key, and then the stored value |
| `Browser.TruthyItem` | src/services/axiosInstance.js:11 | `if (token)` on a `getItem` result: a stored, non-empty string |
| `Browser.Window.constructor` | src/services/axiosInstance.js:10 | a window starts with the given store and pathname, and with no navigation |
| `Browser.Window.SetItem` | src/pages/AuthPage.jsx:61-62 | `setItem` overwrites one key and changes nothing else |
| `Browser.Window.RemoveItem` | src/services/axiosInstance.js:24-25 | `removeItem` removes one key and changes nothing else |
| `Browser.Window.AssignLocation` | src/services/axiosInstance.js:27 | assigning `location.href` records one navigation to that path; the loaded document, and so `pathname`, and the store stay as they were |
| `Jwt.PayloadSegment` | src/utils/auth.js:4 | a token without `.` hands `atob` the string `"undefined"` |
| `Jwt.PayloadSegmentBetweenDots` | src/utils/auth.js:4 | with a `.`, the decoded text is exactly what lies between the first `.` and the next `.` or the end |
| `Jwt.ParseJwt` | src/utils/auth.js:1-8 | a null or empty token gives `null`, and so does a token without `.`; a non-null payload is the parse of the decoded second segment; whenever decoding and parsing succeed, their value is returned; failures give `null`, never an exception |
| `Jwt.UserIdClaims` | src/utils/auth.js:12 | the id claims in the order the chain tries them: `id`, `userId`, `sub` |
| `Jwt.GetUserIdFromToken` | src/utils/auth.js:10-13 | the user id is the first truthy claim among `id`, `userId` and `sub`, otherwise `null`; it is always truthy or `null` |
| `Jwt.FirstListEntry` | src/utils/auth.js:21-30 | a non-array gives `null` and an empty array `undefined`; a string at `[0]` is returned as it is; any other `[0]` gives its `authority` (`undefined` for `null` or a non-object) |
| `Jwt.RoleClaims` | src/utils/auth.js:18-33 | the role claims in the order the chain tries them: `role`, `rol`, the first entry of `roles`, the first entry of `authorities`, `authority` |
| `Jwt.GetRoleFromToken` | src/utils/auth.js:15-34 | a falsy payload gives `''`; otherwise the role is the first truthy value among `role`, `rol`, `roles[0]`, `authorities[0]` and `authority`, else `''` |
| `Jwt.RoleIsClaimOrEmpty` | src/utils/auth.js:18-33 | the role is `''` or a truthy value of one of the candidate claims |
| `Jwt.ClaimPriority` | src/utils/auth.js:12-19 | a truthy `role` always wins; a falsy `id` (such as `0` or `""`) falls through to `userId` |
| `Interceptors.SignRequest` | src/services/axiosInstance.js:9-18 | with a truthy stored token, `Authorization` becomes `Bearer <token>` and overrides any earlier value; every other header is kept; without a token the config is returned unchanged; the store is only read |
| `Interceptors.Unauthorized` | src/services/axiosInstance.js:23 | `error.response && error.response.status === 401`: a rejection with a response whose status is 401 |
| `Interceptors.HandleResponse` | src/services/axiosInstance.js:20-32 | a response passes through and an error is rejected again, unchanged in both cases; only a 401 touches the store, removing both tokens and nothing else, and starts a navigation to `/` unless the loaded page is `/`; the pathname never changes |
| `Interceptors.UnauthorizedTwice` | src/services/axiosInstance.js:26-28 | two 401s that arrive before the new page loads start two navigations when away from `/` and none at `/`; every navigation targets `/`, and both tokens are gone |
| `AuthService.LoginRequest` | src/services/authService.js:7-10 | login posts to `<API_URL>/auth/login` with no extra header and a body of exactly `email` and `password` |
| `AuthService.RegisterRequest` | src/services/authService.js:15 | register posts the user data, as given, to `<API_URL>/auth/register` |
| `AuthService.LogoutRequest` | src/services/authService.js:23-27 | logout posts an empty object to `<API_URL>/auth/logout` with the single header `Authorization: Bearer <token>` |
| `AuthService.ResponseData` | src/services/authService.js:6-17 | login and register yield the response body on success and reject with the same error on failure |
| `AuthService.Logout` | src/services/authService.js:19-35 | the backend is called only for a truthy token read before clearing, with `Bearer <token>`; `logout` always fulfils; afterwards both tokens are gone and every other key, the pathname and the navigations are unchanged |
| `Authentication.RegisterValidation` | src/pages/AuthPage.jsx:83-96 | registration passes exactly with an institutional e-mail, a matching confirmation and at least 6 characters; the checks run in that order and the first failure sets its message; 6 characters pass |
| `Authentication.RegisterPayload` | src/pages/AuthPage.jsx:101 | the body is the form without `confirmPassword`: exactly the other five fields, with their values |
| `Authentication.PayloadIgnoresConfirmation` | src/pages/AuthPage.jsx:101-102 | forms that differ only in the confirmation send the same body |
| `Authentication.LoginErrorMessage` | src/pages/AuthPage.jsx:68-72 | the credentials message exactly for status 401; the connection message for every other status and for no response |
| `Authentication.RegisterErrorMessage` | src/pages/AuthPage.jsx:110-114 | the already-registered message exactly for status 400; the connection message otherwise |
| `Authentication.TokensFrom` | src/pages/AuthPage.jsx:61-62 | a body that is not null or undefined yields the two stored strings, `String(data.accessToken)` and `String(data.refreshToken)`; a null body is a TypeError without response; a rejection stays the same error |
| `Authentication.MissingTokenIsStoredAsUndefined` | src/pages/AuthPage.jsx:61 | a body without `accessToken` stores the truthy string `"undefined"` |
| `Authentication.AuthPage.constructor` | src/pages/AuthPage.jsx:24-28 | the page starts on the login tab, not loading, with no messages |
| `Authentication.AuthPage.HandleTabChange` | src/pages/AuthPage.jsx:41-45 | changing tab sets the tab and clears both messages |
| `Authentication.AuthPage.Settle` | src/pages/AuthPage.jsx:59-75 | on success both tokens are written and the success message is set; on failure the store is untouched and the mapped error is set; `loading` ends false |
| `Authentication.AuthPage.HandleLogin` | src/pages/AuthPage.jsx:47-76 | both messages are cleared first; a non-institutional e-mail sets its error with no call and leaves `loading` alone; otherwise one login call is made, a success stores both tokens and the success message, a failure leaves the store and maps the error, and `loading` ends false |
| `Authentication.AuthPage.HandleRegister` | src/pages/AuthPage.jsx:78-118 | both messages are cleared first; the first failing check sets its message with no call and leaves `loading` alone; otherwise the stripped form is posted, a success stores both tokens, a failure maps the error, and `loading` ends false |
| `Tickets.IsOpen` | src/pages/TicketsPage.jsx:314 | `ticket.estado === 'ABIERTO'`, which holds only for an object with an `estado` key |
| `Tickets.IsClosed` | src/pages/TicketsPage.jsx:315 | `ticket.estado === 'CERRADO'`, which holds only for an object with an `estado` key |
| `Tickets.Partition` | src/pages/TicketsPage.jsx:310-315 | a falsy result is treated as an empty list; the split throws exactly on a truthy non-array or a null element |
| `Tickets.PartitionSplitsByState` | src/pages/TicketsPage.jsx:314-315 | the open list holds exactly the `ABIERTO` tickets and the closed list exactly the `CERRADO` ones, in fetched order with their multiplicities; the lists are disjoint and other states are in neither |
| `Tickets.TicketsPage.constructor` | src/pages/TicketsPage.jsx:18-23 | the page starts with empty lists on tab 0, loading, with no selection and not closing |
| `Tickets.TicketsPage.StartLoad` | src/pages/TicketsPage.jsx:307-310 | `loading` is true while the fetch is pending |
| `Tickets.TicketsPage.FinishLoad` | src/pages/TicketsPage.jsx:311-325 | both lists come from the split on success and are empty on any failure; `loading` ends false |
| `Tickets.TicketsPage.Load` | src/pages/TicketsPage.jsx:307-326 | `load` never fails: it ends with the split lists or two empty lists, and `loading` false |
| `Tickets.TicketsPage.Select` | src/pages/TicketsPage.jsx:368 | clicking a card selects that ticket and changes nothing else |
| `Tickets.TicketsPage.StartClose` | src/pages/TicketsPage.jsx:333-336 | with no selection nothing changes; otherwise the id is captured, `closing` is set and the selection is cleared before the call |
| `Tickets.TicketsPage.FinishClose` | src/pages/TicketsPage.jsx:337-344 | a successful close reloads; a failed one keeps the lists; `closing` ends false either way |
| `Tickets.TicketsPage.HandleClose` | src/pages/TicketsPage.jsx:332-345 | with no selection, a no-op; otherwise it closes the captured id and ends with no selection and `closing` false, and reloads only after a successful close |
| `Tickets.TicketsPage.CurrentTickets` | src/pages/TicketsPage.jsx:434 | tab 0 shows the open list; any other tab shows the closed list |
| `Friends.FullNameKey` | src/pages/FriendsPage.jsx:71 | the full-name text is `nombres` when it is truthy, else `name` (null and missing read as empty), then a space, then `apellidos` (null and missing read as empty) |
| `Friends.UsernameKey` | src/pages/FriendsPage.jsx:74 | the username text is `username`, with null and missing read as empty |
| `Friends.Matches` | src/pages/FriendsPage.jsx:71-74 | the empty query matches every user, and a matching query is no longer than one of the two texts |
| `Friends.MatchesIffOccurs` | src/pages/FriendsPage.jsx:71-74 | a user matches exactly when the lower-cased query occurs in the lower-cased `"<nombres\|name\|''> <apellidos\|''>"` or in the lower-cased `username` |
| `Friends.FilteredRecommendations` | src/pages/FriendsPage.jsx:67-77 | the shown users are an order-preserving subsequence of the suggestions; a user is kept exactly when it matches, as often as it is suggested; an empty query keeps every suggestion |
| `Friends.EmptySearchKeepsAll` | src/pages/FriendsPage.jsx:71-74 | the empty query matches every user |
| `Friends.WithoutSender` | src/pages/FriendsPage.jsx:51 | after removal no pending entry has that id; all other entries remain, in order and with their multiplicities |
| `Friends.DisplayName` | src/pages/FriendsPage.jsx:100 | `"nombres apellidos"` when `nombres` is truthy (a missing surname shows as `undefined`), otherwise `name` as it is |
| `Friends.FriendsPage.constructor` | src/pages/FriendsPage.jsx:20-24 | the page starts on tab 0 with an empty query, empty lists and no user id |
| `Friends.FriendsPage.Load` | src/pages/FriendsPage.jsx:26-45 | with no truthy token or no id in it, nothing is set or fetched; otherwise the user id is set, a successful fetch replaces both lists (with `null` read as empty), and a failed one keeps them |
| `Friends.FriendsPage.Answer` | src/pages/FriendsPage.jsx:47-65 | with no user id, no call is made; otherwise the call is made and a success removes the sender from `pending`; a failure keeps `pending` |
| `Friends.FriendsPage.HandleAccept` | src/pages/FriendsPage.jsx:47-55 | accepting does nothing without a user id; a successful accept removes every request from that id; a failed one keeps `pending` |
| `Friends.FriendsPage.HandleReject` | src/pages/FriendsPage.jsx:57-65 | rejecting does nothing without a user id; a successful reject removes every request from that id; a failed one keeps `pending` |
| `Friends.FriendsPage.ShownRecommendations` | src/pages/FriendsPage.jsx:99 | the first tab lists exactly the suggestions that match the current query |
| `Routes.IsAuthenticated` | src/App.jsx:7 | `localStorage.getItem('accessToken')` is truthy exactly when the key is stored with a non-empty value |
| `Routes.TrimTrailingSlashes` | src/App.jsx:12-19 | the trimmed path is the prefix of the pathname that does not end in `/` and is followed only by slashes |
| `Routes.RouteElement` | src/App.jsx:12-19 | a pathname of slashes only matches `/`: a signed-in user is redirected to `/dashboard` and anyone else sees the forms; `/dashboard` in any ASCII case, followed by any slashes, shows the dashboard to a signed-in user and redirects anyone else to `/`; no other pathname matches |
| `Routes.CanonicalRoutes` | src/App.jsx:12-19 | the two route paths as written render the elements of their routes |
| `Routes.TrailingSlashIgnored` | src/App.jsx:12-19 | one more trailing `/` on a non-empty pathname renders the same element |
| `Routes.CaseIgnored` | src/App.jsx:12-19 | lower-casing a pathname renders the same element |
| `Routes.NoRedirectCycle` | src/App.jsx:12-19 | for a fixed store, every matched pathname reaches a page after at most one redirect |
| `Routes.GuardReadsOnlyAccessToken` | src/App.jsx:7 | stores that agree on the truthiness of `accessToken` route identically; `refreshToken` is ignored |
| `Routes.ClearedStoreShowsForms` | src/App.jsx:14-18 | after both tokens are removed, `/` shows the forms and `/dashboard` redirects to `/` |
| `Routes.UndefinedTokenOpensDashboard` | src/App.jsx:18 | a stored `"undefined"` token opens the dashboard |

## Left out

- Token renewal, a refresh endpoint and a queue of waiting requests. The code has none of these: its 401 path only clears the store, redirects and rejects.
- HTTP and axios. Every backend call is a parameter giving an abstract outcome: success with a body, or an error with an optional response. This covers login, register, logout, closing tickets, the friend-request services and the ticket and friend lists.
- `ticketService.getAllTickets` and the friend services (`getRecommendations`, `getPendingFriendRequests`, `acceptFriendRequest`, `rejectFriendRequest`) are called by the pages but are not defined in the services. The model treats their results as abstract outcomes, as above.
- The "Agregar" button's `sendFriendRequest` call changes no page state. It is not modelled.
- `atob` and `JSON.parse` are parameters. The only fact assumed is that `atob("undefined")` fails. The base64 alphabet is not modelled.
- `validateUBBEmail` lives in `src/utils/validators`, which is not part of this model. It is a predicate parameter.
- `JsStrings.Lower`: maps ASCII letters only. Unicode case mapping is not modelled.
- `Authentication.RegisterValidation`: counts characters, while JavaScript's `length` counts UTF-16 code units. A character outside the Basic Multilingual Plane counts once here and twice in the code.
- `Js.JsValue`: numbers are unbounded integers. Fractions, `NaN`, infinities, the rounding of integers above 2^53, and the exponent form `String(n)` takes for |n| ≥ 10^21 (such as `"1e+21"`) are not modelled.
- `Js.Get`: reads only own properties of objects. Built-in properties such as `length`, and members inherited from prototypes, are not modelled. One consequence: a token whose payload parses to a JSON string has a truthy `payload?.sub` (the function `String.prototype.sub`), so `getUserIdFromToken` returns that function and the friends page fetches with it, while `Jwt.GetUserIdFromToken` gives `null` and `Friends.FriendsPage.Load` fetches nothing.
- `Js.ToJsString`: objects always print as `[object Object]`. An own `toString` or `valueOf` key is ignored.
- `Interceptors.SignRequest`: header names are compared exactly. axios's case-insensitive header handling is not modelled.
- `Browser.Window.AssignLocation`: records the navigation it starts. The unload of the current page and the load of the new one, with their fresh `pathname` and fresh page state, are not modelled.
- `Interceptors.HandleResponse`: assumes `window` exists (`typeof window !== 'undefined'` is always true in a browser).
- `Authentication.AuthPage.HandleLogin`: leaves out the 2-second `setTimeout` that navigates to `/dashboard`. It also does not expose `loading == true` while the call is pending; only the state before and after is stated.
- `Authentication.AuthPage.HandleRegister`: same omissions as `HandleLogin`.
- `Friends.User`: assumes the backend's user schema: both lists are arrays of objects, `nombres`, `name`, `apellidos` and `username` are strings, `null` or missing, and `id` is a primitive. The render-time TypeErrors the code raises otherwise are not modelled: `(u.username || '').toLowerCase()` on a numeric username, `u.nombres` on a `null` entry, and `recommendations.filter` when `rec || []` is a truthy non-array.
- `Friends.FriendsPage.Load`: the `Promise.all` over the two lists is one combined outcome. The effect runs to completion at once; interleaving with other handlers is not modelled.
- `Routes.RouteElement`: matches pathnames as React Router 6 does, lower-casing ASCII letters and ignoring trailing slashes. Percent-decoding of the pathname and a router `basename` are not modelled.
- `Routes.RouteElement`: takes the store as `App` read it when it rendered. React's re-rendering is not modelled, so neither is a stale value of `isAuthenticated` after a login or a logout without reload. After a logout, the dashboard's `navigate('/')` keeps the old `App` render, which still redirects `/` to `/dashboard`; `Routes.ClearedStoreShowsForms` holds for a fresh render, as after the interceptor's reload.
- The form fields' `onChange` handlers and the show-password toggle are left out. The handlers take the current form contents as a parameter.
- Presentation is left out: JSX, styles, hover handlers, the loading spinner, locale date formatting (src/pages/TicketsPage.jsx:347-356) and tab setters that only assign a number.
- Other files are left out: `Login.jsx`, `Register.js`, both `Dashboard` files, the placeholder pages, `userService.js`, `eventService.js` and the configuration files.
