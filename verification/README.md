# Admin dashboard: tab store, request policy, navigation guard, user adapter

A Dafny model of the logic in a Vue admin dashboard's frontend. The model covers four pieces:

- **Tab store** (`tabs.dfy`, module `Tabs`). This is an ordered list of open tabs, keyed by path, plus the path of the active tab. `addTab` opens a tab unless its path is already open, and always activates that path. `removeTab` closes a tab by path. If that tab was active, it activates a neighbour or `/` and tells the router where to go. `clearTabs` closes every tab. The store is the class `TabsStore`, and each of its methods is tied to a specification function (`Added`, `Remove`). The lemmas about those functions prove that the store invariant `Consistent` holds after every action. `Consistent` says that paths are unique and that, while any tab is open, the active path is one of them.
- **Request policy** (`request.dfy`, module `Request`):
  - The class `HttpClient` holds the module-level `requestCount` and the loading overlay. The counter is clamped at zero, and the overlay is open exactly while the counter is positive. This is the class invariant that every method keeps.
  - The request interceptor attaches a bearer token.
  - The response interceptor applies the 2xx test.
  - The error interceptor classifies an error into a user message as a total function over the three error shapes. A 401 also removes the stored token.
- **Navigation guard** (`router.dfy`, module `Router`):
  - `beforeEach` is a three-way decision: redirect to login, redirect to the dashboard, or proceed. It also sets the document title.
  - `afterEach` registers a route with the tab store only when the route has a name and is marked as a tab.
  - The route table's tab metadata is included.
- **User adapter** (`user.dfy`, module `User`). This is the translation from the backend's user record to the frontend's, and the list call's mapping of the response body.

Browser storage is a `map<string, string>` (module `Storage`). It is passed in and returned as a value. The guard reads `authToken`. The HTTP client reads and clears `token`. Modelling storage as a map keeps the two keys distinct, and `Router.SessionKeysAreSeparate` proves that a 401 leaves the guard's view of the session unchanged.

JavaScript truthiness is modelled explicitly:
- An empty route title, route name, stored token, server `message` or error `message` behaves as if absent.
- `meta.closable ?? true` keeps `false` apart from absent, because `??` does.
- A flag compared with `!== false` is an `Option<bool>` that is off only when it is `Some(false)`.

## Notes on the code's behaviour

- The error interceptor rejects the call with the original error (src/utils/request.ts:153). The classified message only goes to the notification.
- Every completion calls `hideLoading`, including completions of calls that opted out of the overlay (src/utils/request.ts:59, 82, 91, 111). So the overlay can close while a counted call is still outstanding. `Request.OptedOutResponseClosesOverlay` shows this.
- src/api/user.ts has only `transformUser` and `getUserList`.

## Model

| member | source | states |
|---|---|---|
| `Tabs.IndexOf` | src/stores/tabs.ts:37 | The result is -1 exactly when no tab has the path. Otherwise it is the first position whose tab has the path. |
| `Tabs.NewTab` | src/stores/tabs.ts:25-30 | The new tab takes the route's name and path. Its title is the route's title when that is non-empty, else the route name. It is not closable exactly when the route says `closable: false`. |
| `Tabs.Added` | src/stores/tabs.ts:22-31 | After `addTab`, the route's path is always open. If it was already open, the list is unchanged. Otherwise exactly one new tab is appended at the end and the earlier tabs stay as they were. |
| `Tabs.AddTabIdempotent` | src/stores/tabs.ts:23-24 | Adding the same route twice gives the same list as adding it once. |
| `Tabs.AddKeepsConsistent` | src/stores/tabs.ts:23-32 | `addTab` keeps paths unique, and its activated path is an open tab. |
| `Tabs.Without` | src/stores/tabs.ts:39 | `splice(index, 1)` removes exactly the element at the index. The elements before it stay in place, and the elements after it shift down by one, in order. |
| `Tabs.Remove` | src/stores/tabs.ts:36-61 | Removing an absent path changes nothing and navigates nowhere. For a present path, the new list is the old one without the first tab holding that path; every other tab keeps its fields and its relative order. If a tab other than the active one is closed, the active path stays and there is no navigation. Any navigation goes to the new active path. |
| `Tabs.RemoveClosesExactlyPath` | src/stores/tabs.ts:37-39 | With unique paths, `removeTab` closes exactly the given path. Every other open path stays open, and the paths stay unique. |
| `Tabs.RemoveActiveNeighbour` | src/stores/tabs.ts:42-58 | Closing the active tab activates, and navigates to, the tab that stood just before it. If it was first, the tab just after it is chosen. If it was the only tab, the store goes to `/` and the list is empty. |
| `Tabs.RemoveKeepsConsistent` | src/stores/tabs.ts:36-61 | `removeTab` keeps the store invariant: paths stay unique and the active path is an open tab whenever one is open. |
| `Tabs.CloseActiveMiddle` | src/stores/tabs.ts:37-48 | With tabs A, B and C and B active, closing B leaves A and C in that order, activates A and navigates to A. |
| `Tabs.TabsStore.constructor` | src/stores/tabs.ts:13-18 | The store starts with no tabs and an empty active path, and satisfies the invariant. |
| `Tabs.TabsStore.AddTab` | src/stores/tabs.ts:21-33 | The new list is `Added` of the old list, the active path is the route's path, and the invariant is kept. |
| `Tabs.TabsStore.RemoveTab` | src/stores/tabs.ts:36-61 | The new list, the active path and the navigation target are those given by `Remove` of the old state, and the invariant is kept. |
| `Tabs.TabsStore.ClearTabs` | src/stores/tabs.ts:65-67 | The list becomes empty, the active path is left unchanged, and the invariant is kept. |
| `Request.DecimalString` | src/utils/request.ts:138 | The status rendered in the generic message is a non-empty string of decimal digits, with no leading zero for a non-zero status. |
| `Request.DecimalRoundTrip` | src/utils/request.ts:138 | Reading the rendered status back gives the status. |
| `Request.WithAuthorization` | src/utils/request.ts:63-67 | A stored, non-empty `token` sets `Authorization` to `Bearer ` followed by the token. Without one, the headers are unchanged. No other header is ever touched. |
| `Request.ResponseOutcome` | src/utils/request.ts:102-108 | A response resolves to its body exactly when its status is in [200, 300). Any other status is rejected with `HTTP <status>: <statusText>`. |
| `Request.ErrorMessage` | src/utils/request.ts:115-145 | Every error gets a non-empty message. The statuses 400, 401, 403, 404 and 500 each get their fixed message, whatever the body says. Any other status gets the server's non-empty message, or else `请求失败 (<status>)`. A request without a response gets the network message. Anything else gets the error's own message, or else `未知错误`. |
| `Request.GenericMessageIdentifiesStatus` | src/utils/request.ts:137-138 | Two unlisted statuses without a server message get the same generic message only if they are the same status. |
| `Request.StorageAfterError` | src/utils/request.ts:124-127 | Only a 401 response removes `token`. No other key is removed, and no stored value ever changes. |
| `Request.Notice` | src/utils/request.ts:147-151 | A notification is shown exactly when the call does not say `showErrorMessage: false`, and it carries the classified, non-empty message. |
| `Request.HttpClient.constructor` | src/utils/request.ts:28-29 | The counter starts at zero with no overlay. |
| `Request.HttpClient.ShowLoading` | src/utils/request.ts:32-40 | The overlay is created exactly when the counter was zero. The counter always grows by one, and the overlay is then open. |
| `Request.HttpClient.HideLoading` | src/utils/request.ts:43-52 | The counter drops by one, and is clamped at zero. The overlay is closed exactly when the counter was one. Afterwards the overlay is open exactly while the counter is positive, so the counter never goes negative. |
| `Request.HttpClient.OnRequest` | src/utils/request.ts:56-80 | The counter grows by one exactly when the call does not say `showLoading: false`. The sent configuration carries the bearer header rule. |
| `Request.HttpClient.OnRequestError` | src/utils/request.ts:81-85 | The overlay is released and the same error is rejected. |
| `Request.HttpClient.OnResponse` | src/utils/request.ts:90-109 | The overlay is released, then the 2xx test decides between the body and a rejection. |
| `Request.HttpClient.OnResponseError` | src/utils/request.ts:110-154 | The overlay is released and a 401 clears `token`. The message is shown unless the call opts out, and the original error is rejected. |
| `Request.OptedOutResponseClosesOverlay` | src/utils/request.ts:59-91 | Take one counted call and one opted-out call. When the opted-out call's response arrives first, the counter reaches zero and the overlay closes while the counted call is outstanding. |
| `Router.DocumentTitle` | src/router/index.ts:57 | The title is the route's title when that is non-empty, else `管理系统`. It is never empty. |
| `Router.BeforeEach` | src/router/index.ts:56-72 | The guard goes to login, with `redirect` set to the destination's full path, exactly when the route requires auth and no `authToken` is stored. It goes to `/admin/dashboard` exactly when the destination is `Login` or `Register` and a token is stored. Otherwise it proceeds. Exactly one of the three happens. |
| `Router.RedirectTargetProceeds` | src/router/index.ts:61-71 | With the same storage, the guard lets a redirect's target through, so redirects never loop. |
| `Router.RouteTableTabs` | src/router/index.ts:13-33 | Dashboard and Users are tab routes. Dashboard's tab is not closable and Users' tab is. Login is never a tab. |
| `Router.AfterEach` | src/router/index.ts:74-79 | A named route marked `inTab` is added to the tab store and activated. Any other route leaves the store unchanged. |
| `Router.SessionKeysAreSeparate` | src/router/index.ts:59 | Removing the client's `token` after an error never changes whether the guard sees a session under `authToken`. Whatever is stored under `authToken` never changes the headers a request is sent with; no `Authorization` header comes from it. |
| `User.TransformUser` | src/api/user.ts:36-44 | `id` is the backend `_id`. Username, email, role and creation time are copied. No password is set. |
| `User.TransformUserForgetsOnlyRevision` | src/api/user.ts:36-44 | Two backend records translate to the same user exactly when they differ at most in `updatedAt` and `__v`. |
| `User.GetUserList` | src/api/user.ts:47-50 | The list has the same length and order as the body's `data.data`, and each user is the translation of the record at the same position. |
| `User.UserListKeepsIds` | src/api/user.ts:47-50 | Distinct backend identifiers give distinct user identifiers. |

## Left out

- The HTTP transport is not modelled: the axios instance, the base URL, the 10-second timeout, the `http` convenience methods, and promise and interceptor scheduling. The interceptors are methods over abstract configurations, responses and errors. Concurrency shows up only as an order of calls.
- The UI calls are not made. `ElLoading.service` and `close` become the `created`/`closed` results and the `overlayOpen` field. `ElMessage.error` becomes the `notice` of `ErrorOutcome`. The guard's `ElMessage.warning` is not modelled.
- Development console logging is left out.
- Tab persistence is left out, because the pinia plugin that writes `tabsList` and `activeTab` to `localStorage` is foreign code. The model assumes that a restored state satisfies the store invariant. Persisted state is not validated against the route table.
- The router is not modelled. Route matching, `createWebHistory`, `scrollBehavior` and the `next` protocol belong to vue-router. The `redirect` query is shown without URL encoding. The `to.meta &&` test is always true for a resolved route.
- Route names that are symbols are not modelled, and neither are non-string titles or messages. A missing name, title or message is treated as the empty string, which JavaScript treats the same way here.
- The `Register` route is named by the guard but does not exist in the route table, so it is not given a route constant.
- The initial message `网络错误` at src/utils/request.ts:115 is overwritten in every branch, so no result can show it.
- The fallback to `/` at src/stores/tabs.ts:49-53 is unreachable, because a tab object is always truthy. The model has only the reachable branch.
- `User.GetUserList` is modelled on the response body already received. The HTTP call, and a rejection passing through it unchanged, belong to the transport.
- src/utils/chartConfig.ts, src/utils/chartUtils.ts, src/main.ts and vite.config.ts are chart configuration, DOM plumbing and bootstrap code, so they are not part of this model.
