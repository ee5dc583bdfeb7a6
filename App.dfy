/** `App.tsx`: the `ProtectedRoute` gate and the route table it guards. */
module App {
  import opened Wrappers
  import opened Types
  import opened Auth

  /** What `ProtectedRoute` renders. */
  datatype Gate = RenderNothing | RedirectTo(path: string) | ApprovalPending | PassThrough

  /** A doctor the admins have not approved yet. */
  predicate AwaitsApproval(u: User)
  {
    u.role == Doctor && !u.approved
  }

  /** A patient who has not picked a condition (missing or empty). */
  predicate AwaitsOnboarding(u: User)
  {
    u.role == Patient && !Truthy(u.condition)
  }

  /** `ProtectedRoute` for the current `(loading, user)`: each outcome, and exactly when it occurs. */
  function ProtectedRoute(loading: bool, user: Option<User>): (g: Gate)
    ensures g == RenderNothing <==> loading
    ensures g == RedirectTo("/login") <==> !loading && user.None?
    ensures g == ApprovalPending <==> !loading && user.Some? && AwaitsApproval(user.value)
    ensures g == RedirectTo("/onboarding") <==> !loading && user.Some? && AwaitsOnboarding(user.value)
    ensures g == PassThrough <==>
      !loading && user.Some? && !AwaitsApproval(user.value) && !AwaitsOnboarding(user.value)
    ensures g.RedirectTo? ==> g.path in {"/login", "/onboarding"}
  {
    if loading then RenderNothing
    else if user.None? then RedirectTo("/login")
    else if user.value.role == Doctor && !user.value.approved then ApprovalPending
    else if user.value.role == Patient && !Truthy(user.value.condition) then RedirectTo("/onboarding")
    else PassThrough
  }

  /** A freshly signed-in user passes the gate, except the mock patient, who has no condition yet
      and is sent to onboarding. */
  lemma LoginThroughGate(email: string)
    ensures var u := LoginProfile(email);
      ProtectedRoute(false, Some(u)) == if u.role == Patient then RedirectTo("/onboarding") else PassThrough
  {
  }

  /** A new doctor account is held at the approval screen until an admin approves it. */
  lemma DoctorSignupIsHeld(data: UserPatch, freshUid: string)
    requires data.role == Some(Doctor) && data.approved.None?
    ensures ProtectedRoute(false, Some(SignupProfile(data, freshUid))) == ApprovalPending
  {
  }

  /** The pages of the route table. */
  datatype Page = HomePage | LoginPage | SignupPage | OnboardingPage | DashboardPage

  /** A route's element: a page, a page behind `ProtectedRoute`, or the catch-all redirect. */
  datatype Route = Open(page: Page) | Guarded(page: Page) | Fallback(to: string)

  /** The route for a path, matched exactly. */
  function RouteFor(path: string): (r: Route)
    ensures r.Guarded? <==> path == "/onboarding" || path == "/dashboard"
    ensures r.Fallback? <==> path !in {"/", "/login", "/signup", "/onboarding", "/dashboard"}
    ensures r.Fallback? ==> r.to == "/"
  {
    if path == "/" then Open(HomePage)
    else if path == "/login" then Open(LoginPage)
    else if path == "/signup" then Open(SignupPage)
    else if path == "/onboarding" then Guarded(OnboardingPage)
    else if path == "/dashboard" then Guarded(DashboardPage)
    else Fallback("/")
  }

  /** What the browser ends up showing. */
  datatype Screen = Blank | Navigate(to: string) | PendingNotice | Show(page: Page)

  function Display(g: Gate, page: Page): Screen
  {
    match g
    case RenderNothing => Blank
    case RedirectTo(to) => Navigate(to)
    case ApprovalPending => PendingNotice
    case PassThrough => Show(page)
  }

  /** The screen for a path, as the route table is written. The auth provider renders no route
      at all until its start-up check is over, so nothing is shown while loading. */
  function Render(path: string, loading: bool, user: Option<User>): (s: Screen)
    ensures loading ==> s == Blank
    ensures !loading && RouteFor(path).Open? ==> s == Show(RouteFor(path).page)
    ensures !loading && RouteFor(path).Fallback? ==> s == Navigate("/")
    ensures !loading && RouteFor(path).Guarded? ==>
      s == Display(ProtectedRoute(loading, user), RouteFor(path).page)
  {
    if loading then Blank
    else
      match RouteFor(path)
      case Open(p) => Show(p)
      case Guarded(p) => Display(ProtectedRoute(loading, user), p)
      case Fallback(to) => Navigate(to)
  }

  /** Once loading is over, every unknown path lands on the home page after one redirect. */
  lemma FallbackLandsHome(path: string, loading: bool, user: Option<User>)
    requires RouteFor(path).Fallback?
    ensures Render(path, loading, user) == (if loading then Blank else Navigate("/"))
    ensures Render("/", loading, user) == (if loading then Blank else Show(HomePage))
  {
  }

  /** The gate is only ever consulted once loading is over, so its "render nothing" outcome never
      reaches the screen: a blank screen means the provider is still loading. */
  lemma BlankOnlyWhileLoading(path: string, loading: bool, user: Option<User>)
    ensures Render(path, loading, user) == Blank <==> loading
  {
  }

  /** As written, the onboarding route sits behind the same gate that sends a patient without a
      condition to it, so such a patient is redirected from `/onboarding` to `/onboarding` and no
      path ever shows them the onboarding page. */
  lemma OnboardingUnreachable(u: User, path: string)
    requires AwaitsOnboarding(u)
    ensures Render("/onboarding", false, Some(u)) == Navigate("/onboarding")
    ensures Render(path, false, Some(u)) != Show(OnboardingPage)
  {
  }

  /** The gate with the onboarding check skipped on the onboarding page itself. */
  function IntendedGate(loading: bool, user: Option<User>, page: Page): (g: Gate)
    ensures page != OnboardingPage ==> g == ProtectedRoute(loading, user)
    ensures page == OnboardingPage && !loading && user.Some? && AwaitsOnboarding(user.value) ==>
      g == PassThrough
    ensures !(!loading && user.Some? && AwaitsOnboarding(user.value)) ==> g == ProtectedRoute(loading, user)
  {
    var g := ProtectedRoute(loading, user);
    if page == OnboardingPage && g == RedirectTo("/onboarding") then PassThrough else g
  }

  /** The screen for a path with the redirect loop removed. */
  function IntendedRender(path: string, loading: bool, user: Option<User>): Screen
  {
    if loading then Blank
    else
      match RouteFor(path)
      case Open(p) => Show(p)
      case Guarded(p) => Display(IntendedGate(loading, user, p), p)
      case Fallback(to) => Navigate(to)
  }

  /** With the correction, a patient without a condition sees the onboarding page, every other
      path renders as written, and the dashboard still sends that patient to onboarding. */
  lemma IntendedOnboarding(u: User, path: string, loading: bool, user: Option<User>)
    requires AwaitsOnboarding(u)
    ensures IntendedRender("/onboarding", false, Some(u)) == Show(OnboardingPage)
    ensures path != "/onboarding" ==> IntendedRender(path, loading, user) == Render(path, loading, user)
    ensures IntendedRender("/dashboard", false, Some(u)) == Navigate("/onboarding")
  {
  }
}
