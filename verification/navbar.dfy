/**
 * The navigation bar: the mobile menu's open/closed state, the overlay shown
 * while it is open, and the two Logout buttons, which run the same sign-out
 * redirect as the home page with the navbar's own copy of the constants.
 * The navbar sits outside the routes, so its state survives navigation.
 */
module Navbar {
  import opened Types
  import opened SignOut
  import Home
  import App

  /** The navbar's copies of the sign-out constants. */
  const ClientId: string := "1a2t44pe0ate3m869hnu1q8ong"
  const LogoutTarget: string := "https://d1wars3xdlos6i.cloudfront.net/"
  const CognitoDomain: string := "https://ap-south-1ixlqtnfr0.auth.ap-south-1.amazoncognito.com/"

  /** Clicks the navbar handles. */
  datatype MenuEvent =
    | MenuButton                // the hamburger button: `toggleMenu`
    | Overlay                   // the dimmed overlay: `toggleMenu`, rendered only while open
    | MobileLink(path: string)  // a link in the slide-out menu: `setIsOpen(false)`
    | MobileLogout              // `setIsOpen(false)` then sign-out
    | DesktopLink(path: string) // a link in the wide-screen bar: no state change
    | DesktopLogout             // sign-out only

  /** `useState(false)`: the menu starts closed. */
  const InitiallyOpen: bool := false

  /** The overlay is rendered exactly while the menu is open. */
  predicate OverlayShown(isOpen: bool) {
    isOpen
  }

  /** Events that close the menu whatever its state: a click on the overlay
      can only happen while it is shown, and then it toggles the menu shut. */
  predicate Closes(e: MenuEvent) {
    e.Overlay? || e.MobileLink? || e.MobileLogout?
  }

  /** The menu state after one click. */
  function Step(isOpen: bool, e: MenuEvent): (next: bool)
    ensures Closes(e) ==> !next
    ensures e.MenuButton? ==> next == !isOpen
    ensures e.DesktopLink? || e.DesktopLogout? ==> next == isOpen
  {
    match e
    case MenuButton => !isOpen
    case Overlay => if OverlayShown(isOpen) then !isOpen else isOpen
    case MobileLink(_) => false
    case MobileLogout => false
    case DesktopLink(_) => isOpen
    case DesktopLogout => isOpen
  }

  /** The state after a sequence of clicks, the last one applied last. */
  function Run(isOpen: bool, es: seq<MenuEvent>): bool
    decreases |es|
  {
    if es == [] then isOpen else Step(Run(isOpen, es[..|es| - 1]), es[|es| - 1])
  }

  /** Menu-button presses since the last closing click (or since the start). */
  function TogglesSinceClose(es: seq<MenuEvent>): nat
    decreases |es|
  {
    if es == [] then 0
    else
      var e := es[|es| - 1];
      if Closes(e) then 0
      else (if e.MenuButton? then 1 else 0) + TogglesSinceClose(es[..|es| - 1])
  }

  /** From the initial closed state, the menu is open exactly when an odd
      number of menu-button presses followed the last closing click. */
  lemma {:induction false} OpenIffOddToggles(es: seq<MenuEvent>)
    ensures Run(InitiallyOpen, es) <==> TogglesSinceClose(es) % 2 == 1
    decreases |es|
  {
    if es != [] {
      OpenIffOddToggles(es[..|es| - 1]);
    }
  }

  /** Toggling twice restores the state. */
  lemma ToggleTwice(isOpen: bool)
    ensures Step(Step(isOpen, MenuButton), MenuButton) == isOpen
  {
  }

  /** Whatever happened before, a closing click leaves the menu closed and the
      overlay gone. */
  lemma ClosingClickHidesOverlay(es: seq<MenuEvent>, e: MenuEvent)
    requires Closes(e)
    ensures !Run(InitiallyOpen, es + [e]) && !OverlayShown(Run(InitiallyOpen, es + [e]))
  {
    assert (es + [e])[..|es + [e]| - 1] == es;
  }

  /** What a click does beyond the menu state: the route it navigates to and
      the sign-out effects it starts. */
  datatype Outcome = Outcome(isOpen: bool, navigateTo: Option<string>, signOut: seq<Effect>)

  /** One click with its effects; `removed` says whether `removeUser` resolves. */
  function Handle(isOpen: bool, e: MenuEvent, removed: bool): (o: Outcome)
    ensures o.isOpen == Step(isOpen, e)
    ensures o.signOut != [] <==> e.MobileLogout? || e.DesktopLogout?
    ensures o.signOut != [] ==> o.signOut == SignOutRedirect(CognitoDomain, ClientId, LogoutTarget, removed)
    ensures o.navigateTo.Some? <==> e.MobileLink? || e.DesktopLink?
    ensures e.MobileLink? || e.DesktopLink? ==> o.navigateTo == Some(e.path)
  {
    var next := Step(isOpen, e);
    match e
    case MobileLink(p) => Outcome(next, Some(p), [])
    case DesktopLink(p) => Outcome(next, Some(p), [])
    case MobileLogout => Outcome(next, None, SignOutRedirect(CognitoDomain, ClientId, LogoutTarget, removed))
    case DesktopLogout => Outcome(next, None, SignOutRedirect(CognitoDomain, ClientId, LogoutTarget, removed))
    case _ => Outcome(next, None, [])
  }

  /** Both Logout buttons sign out exactly as the home page's button does. */
  lemma SignOutMatchesHome(isOpen: bool, e: MenuEvent, removed: bool)
    requires e.MobileLogout? || e.DesktopLogout?
    ensures Handle(isOpen, e, removed).signOut == Home.HomeSignOut(removed)
    ensures e.MobileLogout? ==> !Handle(isOpen, e, removed).isOpen
  {
  }

  /** The `to` of every link in the wide-screen bar, the brand link first. */
  const BarLinks: seq<string> := ["/", "/instances", "/dbs-rds", "/eks-clusters", "/s3-buckets"]

  /** The `to` of every link in the slide-out menu. */
  const MenuLinks: seq<string> := ["/instances", "/dbs-rds", "/eks-clusters", "/s3-buckets"]

  /** Every navbar link lands on a declared page, never on the fallback, and
      the bar reaches every page while the menu reaches every resource page. */
  lemma LinksReachPages(s: App.Screen)
    ensures forall p :: p in BarLinks + MenuLinks ==> App.Route(p).Show?
    ensures exists p :: p in BarLinks && App.Route(p) == App.Show(s)
    ensures s != App.HomeScreen ==> exists p :: p in MenuLinks && App.Route(p) == App.Show(s)
  {
    App.RouteRoundTrip(s, App.PathOf(s));
    assert App.PathOf(s) in BarLinks;
    if s != App.HomeScreen {
      assert App.PathOf(s) in MenuLinks;
    }
  }
}
