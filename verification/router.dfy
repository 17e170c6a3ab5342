/** The router's navigation guard (`beforeEach`), its tab registration
    (`afterEach`) and the route table's metadata. */
module Router {
  import opened Wrappers
  import opened Storage
  import opened Routes
  import Tabs
  import Request

  /** The storage key the guard reads to decide whether the user is signed
      in. It is not the key the HTTP client reads and clears. */
  const AuthTokenKey: string := "authToken"
  const DefaultTitle: string := "管理系统"
  const DashboardPath: string := "/admin/dashboard"
  const LoginName: string := "Login"
  const RegisterName: string := "Register"

  const Dashboard: Route :=
    Route("Dashboard", DashboardPath, DashboardPath, RouteMeta("仪表盘", true, Some(false), true))
  const Users: Route :=
    Route("Users", "/admin/users", "/admin/users", RouteMeta("用户管理", true, Some(true), true))

  /** The login route as the guard's redirect resolves it, carrying the
      original destination in its `redirect` query. */
  function Login(redirect: string): Route
  {
    Route(LoginName, "/login", "/login?redirect=" + redirect, RouteMeta("登录", false, None, false))
  }

  /** What `beforeEach` passes to `next`. */
  datatype Decision =
    | ToLogin(redirect: string)
    | ToPath(path: string)
    | Proceed

  predicate IsAuthenticated(storage: Store)
  {
    HasItem(storage, AuthTokenKey)
  }

  /** The document title `beforeEach` sets: the route's title, else the
      application name. */
  function DocumentTitle(to: Route): (t: string)
    ensures t != ""
    ensures to.meta.title != "" ==> t == to.meta.title
    ensures to.meta.title == "" ==> t == DefaultTitle
  {
    if to.meta.title != "" then to.meta.title else DefaultTitle
  }

  /** The guard's decision for a transition to `to`: a protected route
      without a session goes to login, remembering `to`; login or register
      with a session goes to the dashboard; anything else proceeds. */
  function BeforeEach(to: Route, storage: Store): (d: Decision)
    ensures d.ToLogin? <==> to.meta.requiresAuth && !IsAuthenticated(storage)
    ensures d.ToLogin? ==> d.redirect == to.fullPath
    ensures d.ToPath? <==> (to.name == LoginName || to.name == RegisterName) && IsAuthenticated(storage)
    ensures d.ToPath? ==> d.path == DashboardPath
    ensures d.Proceed? <==>
              !(to.meta.requiresAuth && !IsAuthenticated(storage)) &&
              !((to.name == LoginName || to.name == RegisterName) && IsAuthenticated(storage))
  {
    if to.meta.requiresAuth && !IsAuthenticated(storage) then ToLogin(to.fullPath)
    else if (to.name == LoginName || to.name == RegisterName) && IsAuthenticated(storage) then ToPath(DashboardPath)
    else Proceed
  }

  /** A redirect never loops: in the same storage, the guard lets the
      redirect's target through. */
  lemma RedirectTargetProceeds(to: Route, storage: Store)
    ensures BeforeEach(to, storage).ToLogin? ==>
              BeforeEach(Login(BeforeEach(to, storage).redirect), storage) == Proceed
    ensures BeforeEach(to, storage).ToPath? ==> BeforeEach(Dashboard, storage) == Proceed
  {
  }

  /** Whether `afterEach` registers the route as a tab: it has a name and is
      marked `inTab`. */
  predicate TabEligible(to: Route)
  {
    to.name != "" && to.meta.inTab
  }

  /** Dashboard and Users are tabs; Dashboard's cannot be closed and Users'
      can; the login page is never a tab. */
  lemma RouteTableTabs(redirect: string)
    ensures TabEligible(Dashboard) && !Tabs.NewTab(Dashboard).closable
    ensures TabEligible(Users) && Tabs.NewTab(Users).closable
    ensures !TabEligible(Login(redirect))
  {
  }

  /** `afterEach`: registers an eligible route with the tab store, which opens
      and activates its tab; any other route leaves the store alone. */
  method AfterEach(store: Tabs.TabsStore, to: Route)
    requires store.Valid()
    modifies store
    ensures store.Valid()
    ensures TabEligible(to) ==>
              store.tabsList == Tabs.Added(old(store.tabsList), to) && store.activeTab == to.path
    ensures !TabEligible(to) ==>
              store.tabsList == old(store.tabsList) && store.activeTab == old(store.activeTab)
  {
    if TabEligible(to) {
      store.AddTab(to);
    }
  }

  /** The guard and the HTTP client keep their tokens under different keys:
      a 401 removes the client's token but leaves the guard's view of the
      session as it was, and whatever is stored under the guard's key never
      changes the headers a request is sent with. */
  lemma SessionKeysAreSeparate(storage: Store, error: Request.ErrorShape, headers: map<string, string>, guardToken: string)
    ensures IsAuthenticated(Request.StorageAfterError(storage, error)) == IsAuthenticated(storage)
    ensures Request.WithAuthorization(headers, storage[AuthTokenKey := guardToken]) ==
            Request.WithAuthorization(headers, storage)
  {
  }
}
