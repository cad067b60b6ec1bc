/** The composition root `AppContent`: the `currentPage` state cell, the
    `handleNavigate` callback, the reaction to a change of the auth flag, and
    the choice of what is rendered. */
module App {
  import opened Shop
  import opened Pages
  import Navbar

  /** The page components that can fill the main area. */
  datatype Panel = ProductsPanel | CartPanel | CheckoutPanel

  /** What `AppContent` renders: the login page alone, or the shell with the
      navbar (given the current page's name) and the main area's children. */
  datatype Screen = LoginScreen | Shell(navbarPage: string, main: seq<Panel>)

  /** The page each main-area component belongs to. */
  function PanelPage(p: Panel): Page
  {
    match p
    case ProductsPanel => Products
    case CartPanel => Cart
    case CheckoutPanel => Checkout
  }

  /** The three guarded children of `<main>`, in order. */
  function MainPanels(page: Page): seq<Panel>
  {
    (if page == Products then [ProductsPanel] else [])
    + (if page == Cart then [CartPanel] else [])
    + (if page == Checkout then [CheckoutPanel] else [])
  }

  /** View selection: unauthenticated users see the login page whatever page
      is current; otherwise the navbar and at most one page, the current one. */
  function View(isAuthenticated: bool, currentPage: Page): (v: Screen)
    ensures !isAuthenticated ==> v == LoginScreen
    ensures isAuthenticated ==> v.Shell? && v.navbarPage == Name(currentPage)
    ensures isAuthenticated ==> |v.main| <= 1
    ensures isAuthenticated ==> forall k :: 0 <= k < |v.main| ==> PanelPage(v.main[k]) == currentPage
    ensures isAuthenticated ==> (v.main == [] <==> currentPage == Login)
  {
    if !isAuthenticated then LoginScreen else Shell(Name(currentPage), MainPanels(currentPage))
  }

  /** The page cell together with the auth flag the reaction last ran for. */
  datatype NavState = NavState(page: Page, isAuthenticated: bool)

  /** `useState('login')`, with whatever the auth holder reports at mount. The
      effect's run at mount finds the page already at login and does nothing. */
  function Initial(isAuthenticated: bool): (s: NavState)
    ensures s.page == Login && s.isAuthenticated == isAuthenticated
  {
    NavState(Login, isAuthenticated)
  }

  /** `handleNavigate(page)`. */
  function NavigateStep(s: NavState, name: string): NavState
  {
    match Parse(name)
    case Some(p) => s.(page := p)
    case None => s
  }

  /** The auth holder reports `now`; the effect on `[isAuthenticated]` runs only
      when the value changes, and sends an unauthenticated user to login. */
  function AuthStep(s: NavState, now: bool): NavState
  {
    if now == s.isAuthenticated then s
    else if !now && s.page != Login then NavState(Login, now)
    else s.(isAuthenticated := now)
  }

  /** Exactly the four page names move the page there; any other string
      changes nothing. The auth flag is never touched. */
  lemma NavigateAcceptsPageNames(s: NavState, name: string)
    ensures var t := NavigateStep(s, name);
      && t.isAuthenticated == s.isAuthenticated
      && (IsPageName(name) ==> Name(t.page) == name)
      && (!IsPageName(name) ==> t == s)
  {
  }

  lemma NavigateIdempotent(s: NavState, name: string)
    ensures NavigateStep(NavigateStep(s, name), name) == NavigateStep(s, name)
  {
  }

  /** The auth flag falling to false forces the page back to login... */
  lemma AuthLossForcesLogin(s: NavState)
    requires s.isAuthenticated
    ensures AuthStep(s, false) == NavState(Login, false)
  {
  }

  /** ...and no other report of the auth holder moves the page. */
  lemma AuthOtherwiseKeepsPage(s: NavState, now: bool)
    requires now || !s.isAuthenticated
    ensures AuthStep(s, now) == s.(isAuthenticated := now)
  {
  }

  /** The state may hold a non-login page while nobody is signed in: the login
      page's own `onNavigate` reaches `handleNavigate`, and the reaction runs
      only on a change of the flag. The rendered view is still the login page. */
  lemma LoggedOutPageMayLeaveLogin()
    ensures var t := NavigateStep(Initial(false), "products");
      && !t.isAuthenticated && t.page == Products
      && View(t.isAuthenticated, t.page) == LoginScreen
  {
  }

  /** The two things that change the page: a requested name and a report of
      the auth holder. */
  datatype Event = Request(name: string) | AuthReport(now: bool)

  function Step(s: NavState, e: Event): NavState
  {
    match e
    case Request(name) => NavigateStep(s, name)
    case AuthReport(now) => AuthStep(s, now)
  }

  function Run(s: NavState, events: seq<Event>): NavState
    decreases |events|
  {
    if events == [] then s else Run(Step(s, events[0]), events[1..])
  }

  /** After any sequence of events the page is the one it started on, login,
      or a page some accepted request asked for. */
  lemma {:induction false} PageComesFromRequest(s: NavState, events: seq<Event>)
    ensures var t := Run(s, events);
      || t.page == s.page
      || t.page == Login
      || exists k :: 0 <= k < |events| && events[k].Request? && Parse(events[k].name) == Some(t.page)
    decreases |events|
  {
    if events != [] {
      var s1 := Step(s, events[0]);
      PageComesFromRequest(s1, events[1..]);
      var t := Run(s, events);
      assert t == Run(s1, events[1..]);
      if t.page == s1.page && t.page != s.page && t.page != Login {
        assert events[0].Request? && Parse(events[0].name) == Some(t.page);
      } else if exists k :: 0 <= k < |events[1..]| && events[1..][k].Request? && Parse(events[1..][k].name) == Some(t.page) {
        var k :| 0 <= k < |events[1..]| && events[1..][k].Request? && Parse(events[1..][k].name) == Some(t.page);
        assert events[k + 1] == events[1..][k];
      }
    }
  }

  /** How `AppContent` carries out what the navbar asks for: `logout` makes the
      auth holder report false, `onNavigate` is `handleNavigate`. */
  function Perform(s: NavState, acts: seq<Navbar.Action>): NavState
    decreases |acts|
  {
    if acts == [] then s
    else
      var s1 := match acts[0]
        case Logout => AuthStep(s, false)
        case NavigateTo(name) => NavigateStep(s, name);
      Perform(s1, acts[1..])
  }

  /** Signing out from the navbar lands on the login page, signed out. */
  lemma LogoutLandsOnLogin(s: NavState)
    ensures var t := Perform(s, Navbar.HandleLogout());
      && t.page == Login && !t.isAuthenticated
      && View(t.isAuthenticated, t.page) == LoginScreen
  {
  }

  /** A navbar click other than Sair, made while signed in, shows the page the
      click names, highlighted in the navbar when it is Produtos or Carrinho. */
  lemma NavbarClickShowsPage(s: NavState, c: Navbar.Control)
    requires s.isAuthenticated && c != Navbar.LogoutButton
    ensures var t := Perform(s, Navbar.OnClick(c));
      && t.isAuthenticated
      && Navbar.OnClick(c) == [Navbar.NavigateTo(Name(t.page))]
      && View(t.isAuthenticated, t.page).main == [if t.page == Products then ProductsPanel else CartPanel]
      && (c != Navbar.Logo ==> Navbar.Highlighted(Name(t.page), c))
  {
  }

  /** The `currentPage` cell of a mounted `AppContent`, with the auth flag the
      auth effect last saw. */
  class Navigator {
    var currentPage: Page
    var isAuthenticated: bool

    function State(): NavState
      reads this
    {
      NavState(currentPage, isAuthenticated)
    }

    constructor (isAuthenticated: bool)
      ensures State() == Initial(isAuthenticated)
    {
      currentPage := Login;
      this.isAuthenticated := isAuthenticated;
    }

    /** `handleNavigate(page)`. */
    method HandleNavigate(page: string)
      modifies this
      ensures State() == NavigateStep(old(State()), page)
      ensures IsPageName(page) ==> Name(currentPage) == page
      ensures !IsPageName(page) ==> currentPage == old(currentPage)
      ensures isAuthenticated == old(isAuthenticated)
    {
      if page == "login" || page == "products" || page == "cart" || page == "checkout" {
        currentPage := Parse(page).value;
      }
    }

    /** A render with the auth holder's current flag, followed by the effect
      that depends on it. */
    method AuthChanged(now: bool)
      modifies this
      ensures State() == AuthStep(old(State()), now)
      ensures isAuthenticated == now
      ensures old(isAuthenticated) && !now ==> currentPage == Login
      ensures (now || !old(isAuthenticated)) ==> currentPage == old(currentPage)
    {
      if now != isAuthenticated {
        isAuthenticated := now;
        if !isAuthenticated && currentPage != Login {
          currentPage := Login;
        }
      }
    }
  }
}
