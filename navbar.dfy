/** The navbar's derived values: the cart badge, the highlighted page button,
    the greeting, and the actions each control issues when clicked. */
module Navbar {
  import opened Shop
  import opened Pages

  /** `cart.reduce((total, item) => total + item.quantity, total)`: a left fold
      that adds the lines' quantities to the running total in cart order. */
  function Reduce(total: int, cart: seq<CartItem>): int
    decreases |cart|
  {
    if cart == [] then total else Reduce(total + cart[0].quantity, cart[1..])
  }

  /** The mathematical sum of the quantities, the reference for the fold. */
  function SumQuantities(cart: seq<CartItem>): nat
    decreases |cart|
  {
    if cart == [] then 0 else cart[0].quantity + SumQuantities(cart[1..])
  }

  lemma {:induction false} ReduceAddsSum(total: int, cart: seq<CartItem>)
    ensures Reduce(total, cart) == total + SumQuantities(cart)
    decreases |cart|
  {
    if cart != [] {
      ReduceAddsSum(total + cart[0].quantity, cart[1..]);
    }
  }

  /** `totalItems`: the number of units in the cart; 0 for the empty cart. */
  function TotalItems(cart: seq<CartItem>): (n: nat)
    ensures n == SumQuantities(cart)
    ensures cart == [] ==> n == 0
  {
    ReduceAddsSum(0, cart);
    Reduce(0, cart)
  }

  /** The total is positive exactly when some line has a positive quantity. */
  lemma {:induction false} SumPositiveIffSomeLine(cart: seq<CartItem>)
    ensures SumQuantities(cart) > 0 <==> exists i :: 0 <= i < |cart| && cart[i].quantity > 0
    decreases |cart|
  {
    if cart != [] {
      SumPositiveIffSomeLine(cart[1..]);
      if cart[0].quantity == 0 && SumQuantities(cart) > 0 {
        var j :| 0 <= j < |cart[1..]| && cart[1..][j].quantity > 0;
        assert cart[j + 1].quantity > 0;
      }
      if SumQuantities(cart[1..]) == 0 {
        forall i | 1 <= i < |cart| ensures cart[i].quantity == 0 {
          assert cart[i] == cart[1..][i - 1];
        }
      }
    }
  }

  /** The badge on the cart button: shown exactly when totalItems > 0, and
      then displaying totalItems. */
  function Badge(cart: seq<CartItem>): (badge: Option<nat>)
    ensures badge.Some? <==> exists i :: 0 <= i < |cart| && cart[i].quantity > 0
    ensures badge.Some? ==> badge.value == SumQuantities(cart) && badge.value > 0
  {
    var n := TotalItems(cart);
    SumPositiveIffSomeLine(cart);
    if n > 0 then Some(n) else None
  }

  /** With the cart holder's rule that every line has quantity at least 1,
      the badge is shown exactly when the cart is not empty. */
  lemma BadgeIffCartNotEmpty(cart: seq<CartItem>)
    requires forall i :: 0 <= i < |cart| ==> cart[i].quantity >= 1
    ensures Badge(cart).Some? <==> cart != []
  {
  }

  /** What a click hands to the navbar's collaborators: the auth holder's
      `logout` or the `onNavigate` callback with a page name. */
  datatype Action = Logout | NavigateTo(page: string)

  /** The clickable controls: the TechStore logo, the Produtos, Carrinho and
      Sair buttons. */
  datatype Control = Logo | ProductsButton | CartButton | LogoutButton

  /** `handleLogout`: sign out first, then ask for the login page. */
  function HandleLogout(): (acts: seq<Action>)
    ensures |acts| == 2 && acts[0] == Logout
    ensures acts[1].NavigateTo? && Parse(acts[1].page) == Some(Login)
    ensures forall k :: 0 <= k < |acts| && acts[k].NavigateTo? ==> k == 1 && Parse(acts[k].page) == Some(Login)
  {
    [Logout, NavigateTo("login")]
  }

  /** The actions a click on each control issues, in order. Every page name
      the navbar asks for is one that `handleNavigate` accepts. */
  function OnClick(c: Control): (acts: seq<Action>)
    ensures forall k :: 0 <= k < |acts| && acts[k].NavigateTo? ==> IsPageName(acts[k].page)
    ensures c != LogoutButton ==> |acts| == 1 && acts[0].NavigateTo?
  {
    match c
    case Logo => [NavigateTo("products")]
    case ProductsButton => [NavigateTo("products")]
    case CartButton => [NavigateTo("cart")]
    case LogoutButton => HandleLogout()
  }

  /** The logo and the Produtos button both lead to the products page; the
      Carrinho button leads to the cart page. */
  lemma ClickTargets()
    ensures OnClick(Logo) == OnClick(ProductsButton)
    ensures OnClick(ProductsButton) == [NavigateTo(Name(Products))]
    ensures OnClick(CartButton) == [NavigateTo(Name(Cart))]
  {
  }

  /** Whether a control's label is set in bold (`font-bold`) for the page the
      navbar is told is current. Only the Produtos and Carrinho buttons change. */
  predicate Highlighted(currentPage: string, c: Control)
  {
    match c
    case ProductsButton => currentPage == "products"
    case CartButton => currentPage == "cart"
    case Logo => false
    case LogoutButton => false
  }

  /** A page button is highlighted exactly when it leads to the current page;
      so at most one control is highlighted. */
  lemma HighlightFollowsPage(currentPage: string, c: Control)
    requires c == ProductsButton || c == CartButton
    ensures Highlighted(currentPage, c) <==> OnClick(c) == [NavigateTo(currentPage)]
  {
  }

  lemma AtMostOneHighlighted(currentPage: string, c1: Control, c2: Control)
    requires Highlighted(currentPage, c1) && Highlighted(currentPage, c2)
    ensures c1 == c2
  {
  }

  /** The greeting `Olá, <name>`, rendered only when a user is present. */
  function Greeting(user: Option<User>): (g: Option<string>)
    ensures g.Some? <==> user.Some?
    ensures g.Some? ==> |g.value| >= |user.value.name| && g.value[|g.value| - |user.value.name|..] == user.value.name
  {
    match user
    case None => None
    case Some(u) => Some("Olá, " + u.name)
  }
}
