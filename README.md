# TechStore storefront: navigation, navbar and prize wheel

This project models the three pieces of logic in the TechStore storefront UI
and proves properties about them:

- **Prize wheel** (`src/components/PrizeWheel.tsx`). A spin controller with
  four state cells: `isSpinning`, `selectedProduct`, `rotation` and
  `showPrize`. `spinWheel` refuses to start while a spin is running. It draws
  the number of turns, the final offset and the prize index, and then
  schedules a reveal. The reveal stops the spin and shows the prize. Only the
  first six products go on the wheel.
- **Page navigation** (`src/App.tsx`). `AppContent` holds `currentPage`,
  which starts at `login`. `handleNavigate` accepts four page names. An
  effect on `isAuthenticated` sends a signed-out user back to `login`. The
  view shows the login page whenever nobody is signed in.
- **Navbar** (`src/components/Navbar.tsx`). The cart badge is a fold of the
  cart's quantities. The page buttons are highlighted, a greeting is shown
  for a signed-in user, and sign-out is ordered.

Modules:

- `Shop` (`shop.dfy`): the shared values `Product`, `CartItem` and `User`,
  and `Option` for `null` / `undefined`.
- `Pages` (`pages.dfy`): the page enumeration and the `handleNavigate` name
  guard.
- `PrizeWheel` (`prize_wheel.dfy`): the pure state machine `WheelState`
  (`SpinStep`, `FireStep`, `Run`) with its invariant `Inv`. The class `Wheel`
  holds the four cells and the pending timer. Its methods `Spin` and
  `TimerFired` are proved to follow `SpinStep` and `FireStep`.
- `Navbar` (`navbar.dfy`): pure derivations and the actions each click issues.
- `App` (`app.dfy`): the pure state machine `NavState` (`NavigateStep`,
  `AuthStep`, `Run`, `Perform`), the view function `View`, and the class
  `Navigator` whose methods follow those steps.

How the environment appears in the model:

- Each `Math.floor(Math.random() * k)` is an integer parameter. `IsDraw(d, k)`
  allows `0 <= d < k`, or only `d == 0` when `k == 0`.
- The 5000 ms `setTimeout` is a separate `TimerFired` event. The callback it
  schedules, with the prize it captured, is the state component `timer`.
- The auth holder's flag is an input, given to `AuthStep` / `AuthChanged`.
  `logout()` is performed as the auth holder reporting `false`.

One might expect that navigation cannot settle on a non-login page while
nobody is signed in. `AppContent` does not guarantee that. The login page's
own `onNavigate` reaches `handleNavigate`, and the effect runs only when
`isAuthenticated` changes. So `currentPage` can become `products` while
nobody is signed in. `App.LoggedOutPageMayLeaveLogin` shows such a state.
What the code does guarantee is about the rendered view: `App.View` is the
login screen whenever `isAuthenticated` is false.

## Model

| member | source | states |
|---|---|---|
| `Pages.Parse` | src/App.tsx:20-24 | the result is a page exactly for the four names login/products/cart/checkout, and that page's name is the string given |
| `Pages.ParseName` | src/App.tsx:11 | every page's name passes the guard and parses back to that page |
| `PrizeWheel.Displayed` | src/components/PrizeWheel.tsx:12 | the wheel shows a prefix of the product list, at most six long, and the whole list when it is shorter |
| `PrizeWheel.TotalRotation` | src/components/PrizeWheel.tsx:25-27 | for admissible draws the angle lies in [1800, 3599]; it encodes turns + 5 full turns and the drawn offset |
| `PrizeWheel.EveryAngleReachable` | src/components/PrizeWheel.tsx:25-27 | every angle in [1800, 3599] comes from some pair of admissible draws |
| `PrizeWheel.PrizeAt` | src/components/PrizeWheel.tsx:29-30 | a prize, when present, is a displayed product; for an admissible index it is present exactly when the list is non-empty |
| `PrizeWheel.EveryShownProductCanWin` | src/components/PrizeWheel.tsx:29-30 | every displayed product is the prize for some admissible index draw |
| `PrizeWheel.InitialInv` | src/components/PrizeWheel.tsx:14-17 | the initial cells satisfy the widget invariant |
| `PrizeWheel.SpinKeepsInv` | src/components/PrizeWheel.tsx:19-39 | a spin with admissible draws preserves the invariant (spinning iff reveal pending, no panel while spinning, angle 0 or in range, prizes from the list) |
| `PrizeWheel.FireKeepsInv` | src/components/PrizeWheel.tsx:34-38 | the reveal preserves the invariant |
| `PrizeWheel.SpinWhileSpinningIgnored` | src/components/PrizeWheel.tsx:20 | a spin requested during a spin leaves the state unchanged |
| `PrizeWheel.SpinStarts` | src/components/PrizeWheel.tsx:22-32 | an accepted spin sets spinning, hides the prize, keeps the old selection, arms the reveal and overwrites the angle with one in range |
| `PrizeWheel.RevealSelectsDrawnPrize` | src/components/PrizeWheel.tsx:29-38 | after spin then reveal: not spinning, prize shown, selection is the product drawn at spin time (a displayed one when the list is non-empty) |
| `PrizeWheel.SpinDisabled` | src/components/PrizeWheel.tsx:131 | the spin button is disabled exactly while a reveal is pending |
| `PrizeWheel.PrizePanel` | src/components/PrizeWheel.tsx:142 | the panel appears exactly when `showPrize` holds and a product is selected, and then shows that product; it is a displayed product, never shown during a spin, and never shown with no products |
| `PrizeWheel.RevealShowsPanel` | src/components/PrizeWheel.tsx:29-38 | after an accepted spin over a non-empty list, the reveal shows the panel with exactly the product drawn at spin time |
| `PrizeWheel.SectorShades` | src/components/PrizeWheel.tsx:75-77 | one shade per displayed product, sector i having the shade of index i |
| `PrizeWheel.ShadesAlternate` | src/components/PrizeWheel.tsx:77 | neighbouring sectors differ in shade and the pattern repeats every two sectors |
| `PrizeWheel.RimAlternatesIffEven` | src/components/PrizeWheel.tsx:77 | the last sector's shade differs from the first's exactly when the number of sectors is even |
| `PrizeWheel.RunKeepsInv` | src/components/PrizeWheel.tsx:19-38 | every state reached by admissible clicks and timer firings satisfies the invariant |
| `PrizeWheel.ClicksWhileSpinningIgnored` | src/components/PrizeWheel.tsx:20 | any number of clicks during a spin change nothing |
| `PrizeWheel.EmptyWheelNeverShowsPrize` | src/components/PrizeWheel.tsx:29-38 | with an empty product list no sequence of events ever shows a prize panel |
| `PrizeWheel.Wheel.constructor` | src/components/PrizeWheel.tsx:11-17 | the display list is the six-product prefix and the cells start not spinning, nothing selected, angle 0, panel hidden |
| `PrizeWheel.Wheel.Spin` | src/components/PrizeWheel.tsx:19-39 | the cells change as SpinStep says: nothing while spinning, else spinning, hidden, same selection, angle in range; the invariant is kept |
| `PrizeWheel.Wheel.PanelShown` | src/components/PrizeWheel.tsx:142 | reading the cells, the panel is present exactly when `showPrize` holds and a product is selected, holds a displayed product, and never appears during a spin |
| `PrizeWheel.Wheel.TimerFired` | src/components/PrizeWheel.tsx:34-38 | the cells change as FireStep says: the pending prize becomes the selection, shown, spin over; the invariant is kept |
| `Navbar.ReduceAddsSum` | src/components/Navbar.tsx:15 | the reduce fold from a seed adds the sum of all quantities to that seed |
| `Navbar.TotalItems` | src/components/Navbar.tsx:15 | `totalItems` is the sum of the line quantities, 0 for an empty cart |
| `Navbar.SumPositiveIffSomeLine` | src/components/Navbar.tsx:53 | the total is positive exactly when some line has a positive quantity |
| `Navbar.Badge` | src/components/Navbar.tsx:53-57 | the badge is shown exactly when some line has a positive quantity, and then displays the (positive) total |
| `Navbar.BadgeIffCartNotEmpty` | src/components/Navbar.tsx:53-57 | when every line has quantity at least 1, the badge is shown exactly for a non-empty cart |
| `Navbar.HandleLogout` | src/components/Navbar.tsx:17-20 | sign-out issues exactly two actions: `logout` first, then a navigation to login, and no other navigation |
| `Navbar.OnClick` | src/components/Navbar.tsx:27-63 | every page name a navbar click asks for passes the navigation guard; a non-logout click is a single navigation |
| `Navbar.ClickTargets` | src/components/Navbar.tsx:27-49 | the logo and Produtos both navigate to products; Carrinho navigates to cart |
| `Navbar.HighlightFollowsPage` | src/components/Navbar.tsx:41-49 | Produtos / Carrinho is bold exactly when it navigates to the current page |
| `Navbar.AtMostOneHighlighted` | src/components/Navbar.tsx:41-48 | at most one control is bold for any current page |
| `Navbar.Greeting` | src/components/Navbar.tsx:34-38 | a greeting exists exactly when a user is present, and it ends with the user's name |
| `App.View` | src/App.tsx:26-37 | signed out: the login screen whatever the page; signed in: the navbar with the page's name and at most one main panel, the current page's, none for login |
| `App.Initial` | src/App.tsx:11 | the initial page is login |
| `App.NavigateAcceptsPageNames` | src/App.tsx:20-24 | a legal name moves the page to that name, any other string changes nothing, the auth flag is untouched |
| `App.NavigateIdempotent` | src/App.tsx:21-22 | navigating twice to the same name equals navigating once |
| `App.AuthLossForcesLogin` | src/App.tsx:14-18 | when the flag falls from true to false the page becomes login |
| `App.AuthOtherwiseKeepsPage` | src/App.tsx:14-18 | any other auth report leaves the page where it is |
| `App.LoggedOutPageMayLeaveLogin` | src/App.tsx:14-28 | signed out, a request for products moves the state to products while the view stays the login screen |
| `App.PageComesFromRequest` | src/App.tsx:11-24 | after any events the page is its start page, login, or a page some accepted request named |
| `App.LogoutLandsOnLogin` | src/components/Navbar.tsx:17-20 | performing the navbar's sign-out from any state ends signed out on login, showing the login screen |
| `App.NavbarClickShowsPage` | src/App.tsx:32-37 | a signed-in non-logout navbar click shows exactly the named page in the main area, highlighted for Produtos / Carrinho |
| `App.Navigator.constructor` | src/App.tsx:11 | a mounted `AppContent` starts on login |
| `App.Navigator.HandleNavigate` | src/App.tsx:20-24 | the page cell changes as NavigateStep says: to the named page for a legal name, otherwise not at all |
| `App.Navigator.AuthChanged` | src/App.tsx:14-18 | the cells change as AuthStep says: a fall to false forces login, nothing else moves the page |

## Left out

- Radial layout of the wheel (`360 / products.length`, `Math.cos`, `Math.sin`, the `0.45` scale, the counter-rotation of labels): floating-point CSS geometry.
- `price.toFixed(2)` and all other formatting: float-to-string display. `Product.price` is carried as a `real` and never used.
- `Math.random` itself and the uniformity of the draws: the draws are parameters, constrained only to the values they can take.
- The 5000 ms delay, the framer-motion animation and its easing: the timeout is the explicit `TimerFired` event.
- PrizeWheel.Wheel.TimerFired: a firing with no reveal pending is a no-op. The source never fires one.
- Unmounting the wheel mid-spin: a framework lifecycle hazard.
- PrizeWheel.Wheel: the display list is fixed per instance. The source recomputes the slice from props on each render, so a props change mid-spin is not modelled.
- React batching, re-rendering and stale closures, and double clicks before a re-render: framework and event-loop semantics. Each event runs to completion on the current state.
- JSX markup, Tailwind classes, icons and images: presentation only. The logo's constant bold style is not a highlight.
- The cart holder's add/remove/update/clear and the auth holder's login/logout: `ShopContext` and `AuthContext` are not part of this model. Carts and users are inputs.
- `src/types` is not part of this model. `Product` has the fields the components read (id, name, price, image); the type of `id` is taken to be an integer.
- The page components (`LoginPage`, `ProductsPage`, `CartPage`, `CheckoutPage`) are not part of this model. They appear only as what `AppContent` renders and as callers of `handleNavigate`.
