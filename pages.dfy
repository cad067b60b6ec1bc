/** The page enumeration `'login' | 'products' | 'cart' | 'checkout'` and the
    string guard that `handleNavigate` applies to a requested page name. */
module Pages {
  import opened Shop

  datatype Page = Login | Products | Cart | Checkout

  /** The string literal that denotes each page. */
  function Name(p: Page): string
  {
    match p
    case Login => "login"
    case Products => "products"
    case Cart => "cart"
    case Checkout => "checkout"
  }

  /** True exactly for the four names `handleNavigate` accepts. */
  predicate IsPageName(s: string)
  {
    s == "login" || s == "products" || s == "cart" || s == "checkout"
  }

  /** Reads a requested page name; any other string is refused. */
  function Parse(s: string): (r: Option<Page>)
    ensures r.Some? <==> IsPageName(s)
    ensures r.Some? ==> Name(r.value) == s
  {
    if s == "login" then Some(Login)
    else if s == "products" then Some(Products)
    else if s == "cart" then Some(Cart)
    else if s == "checkout" then Some(Checkout)
    else None
  }

  /** Parse inverts Name, so distinct pages have distinct names. */
  lemma ParseName(p: Page)
    ensures IsPageName(Name(p))
    ensures Parse(Name(p)) == Some(p)
  {
  }
}
