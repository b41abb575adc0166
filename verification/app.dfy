/**
 * The application shell: the authentication gate that wraps every dashboard
 * view, the callback-path URL scrub it performs, and the route table. The
 * identity provider's state (`isLoading`, `error`, `isAuthenticated`) is an
 * input; the provider's token handling is not modelled.
 */
module App {
  import opened Types

  /** What the identity-provider hook reports on one render. */
  datatype AuthState = AuthState(isLoading: bool, error: Option<string>, isAuthenticated: bool)

  /** What the gate renders. */
  datatype GateView =
    | LoadingView               // "Loading..."
    | ErrorView(message: string) // "Encountered error: ..."
    | RedirectingView           // "Redirecting to login..."
    | ChildrenView              // the navbar and the routes

  /** The gate's decision on one render: loading before error, error before
      authentication. */
  function Gate(a: AuthState): (v: GateView)
    ensures v == LoadingView <==> a.isLoading
    ensures v.ErrorView? <==> !a.isLoading && a.error.Some?
    ensures v.ErrorView? ==> v.message == a.error.value
    ensures v == RedirectingView <==> !a.isLoading && a.error.None? && !a.isAuthenticated
    ensures v == ChildrenView <==> !a.isLoading && a.error.None? && a.isAuthenticated
  {
    if a.isLoading then LoadingView
    else if a.error.Some? then ErrorView(a.error.value)
    else if !a.isAuthenticated then RedirectingView
    else ChildrenView
  }

  /** Whether a render calls `signinRedirect`. The call sits in the render path
      itself, so it is made on every render that reaches it. */
  predicate CallsSigninRedirect(a: AuthState) {
    Gate(a) == RedirectingView
  }

  /** Number of `signinRedirect` calls over a sequence of renders. */
  function RedirectCalls(renders: seq<AuthState>): nat
    decreases |renders|
  {
    if renders == [] then 0
    else (if CallsSigninRedirect(renders[0]) then 1 else 0) + RedirectCalls(renders[1..])
  }

  /** The error state never redirects: it only shows the message. */
  lemma ErrorNeverRedirects(a: AuthState)
    requires !a.isLoading && a.error.Some?
    ensures !CallsSigninRedirect(a)
    ensures Gate(a) == ErrorView(a.error.value)
  {
  }

  /** Re-rendering while unauthenticated calls `signinRedirect` once per render,
      not once per entry into the state. */
  lemma {:induction false} RedirectOncePerRender(a: AuthState, n: nat)
    requires !a.isLoading && a.error.None? && !a.isAuthenticated
    ensures RedirectCalls(seq(n, _ => a)) == n
  {
    if n > 0 {
      var rs := seq(n, _ => a);
      assert rs[1..] == seq(n - 1, _ => a);
      RedirectOncePerRender(a, n - 1);
    }
  }

  /** Renders in which a redirect call is made are exactly the unauthenticated
      ones that are neither loading nor errored. */
  lemma {:induction false} RedirectCallsCountUnauthenticated(renders: seq<AuthState>)
    ensures RedirectCalls(renders) <= |renders|
    ensures RedirectCalls(renders) == 0 <==>
              forall i :: 0 <= i < |renders| ==>
                renders[i].isLoading || renders[i].error.Some? || renders[i].isAuthenticated
    decreases |renders|
  {
    if renders != [] {
      RedirectCallsCountUnauthenticated(renders[1..]);
      assert forall i :: 1 <= i < |renders| ==> renders[i] == renders[1..][i - 1];
    }
  }

  // ---------------------------------------------------------------------------
  // Callback scrub
  // ---------------------------------------------------------------------------

  /** The browser history as a stack of paths; the last entry is the current one. */
  datatype History = History(entries: seq<string>)

  /** The path the identity provider returns to. */
  const CallbackPath: string := "/callback"

  /** The gate's effect: when authenticated on the callback path, the current
      history entry is replaced by `/` (`history.replaceState`). */
  function Scrub(h: History, isAuthenticated: bool): (r: History)
    requires |h.entries| > 0
    ensures |r.entries| == |h.entries|
    ensures r.entries[..|h.entries| - 1] == h.entries[..|h.entries| - 1]
    ensures isAuthenticated && h.entries[|h.entries| - 1] == CallbackPath ==> r.entries[|r.entries| - 1] == "/"
    ensures !isAuthenticated || h.entries[|h.entries| - 1] != CallbackPath ==> r == h
  {
    var n := |h.entries|;
    if h.entries[n - 1] == CallbackPath && isAuthenticated
    then History(h.entries[..n - 1] + ["/"])
    else h
  }

  /** The scrub is idempotent: once it has run, its condition no longer holds. */
  lemma ScrubIdempotent(h: History, isAuthenticated: bool)
    requires |h.entries| > 0
    ensures Scrub(Scrub(h, isAuthenticated), isAuthenticated) == Scrub(h, isAuthenticated)
  {
  }

  // ---------------------------------------------------------------------------
  // Routes
  // ---------------------------------------------------------------------------

  /** The pages the route table can render. */
  datatype Screen = HomeScreen | InstancesScreen | DatabasesScreen | ClustersScreen | BucketsScreen

  /** What the route table does with a path. */
  datatype Routed = Show(screen: Screen) | ReplaceWith(target: string)

  /** The declared path of each page. */
  function PathOf(s: Screen): string {
    match s
    case HomeScreen => "/"
    case InstancesScreen => "/instances"
    case DatabasesScreen => "/dbs-rds"
    case ClustersScreen => "/eks-clusters"
    case BucketsScreen => "/s3-buckets"
  }

  /** The route table: five exact paths, and `*` replace-navigating to `/`. */
  function Route(path: string): (r: Routed)
    ensures r.Show? ==> PathOf(r.screen) == path
    ensures r.ReplaceWith? ==> r.target == "/" && forall s: Screen :: PathOf(s) != path
  {
    if path == "/" then Show(HomeScreen)
    else if path == "/instances" then Show(InstancesScreen)
    else if path == "/dbs-rds" then Show(DatabasesScreen)
    else if path == "/eks-clusters" then Show(ClustersScreen)
    else if path == "/s3-buckets" then Show(BucketsScreen)
    else ReplaceWith("/")
  }

  /** Every page is reached by its own path, and an unknown path reaches the
      home page after one redirect. */
  lemma RouteRoundTrip(s: Screen, path: string)
    ensures Route(PathOf(s)) == Show(s)
    ensures Route(path).ReplaceWith? ==> Route(Route(path).target) == Show(HomeScreen)
  {
  }

  /** The callback path is not a route: it falls back to the home page. */
  lemma CallbackFallsBackHome()
    ensures Route(CallbackPath) == ReplaceWith("/")
  {
  }

  /** The whole app on one render: the gate's view, and the navbar with the
      routed page only when the gate renders its children. */
  datatype AppView = AppView(gate: GateView, dashboard: Option<Routed>)

  function RenderApp(a: AuthState, path: string): (v: AppView)
    ensures v.dashboard.Some? <==> !a.isLoading && a.error.None? && a.isAuthenticated
    ensures v.dashboard.Some? ==> v.dashboard.value == Route(path)
  {
    var g := Gate(a);
    AppView(g, if g == ChildrenView then Some(Route(path)) else None)
  }
}
