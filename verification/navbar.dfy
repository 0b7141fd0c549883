/** The navigation bar (Navbar.jsx): which controls are shown, which tab is
    highlighted, and what each click does. */
module Navbar {
  import Router
  import opened Effects

  datatype Item = Brand | HomeTab | AboutTab | ProfileButton | LogoutButton | LoginButton

  /** The controls in display order; the last ones depend on the session. */
  function Items(isAuthenticated: bool): (r: seq<Item>)
    ensures Brand in r && HomeTab in r && AboutTab in r
    ensures ProfileButton in r <==> isAuthenticated
    ensures LogoutButton in r <==> isAuthenticated
    ensures LoginButton in r <==> !isAuthenticated
  {
    [Brand, HomeTab, AboutTab] + if isAuthenticated then [ProfileButton, LogoutButton] else [LoginButton]
  }

  /** The active-tab style: Home on `"home"`, About on `"about"`. The
      highlighted control leads to the page already shown. */
  predicate Highlighted(item: Item, route: string)
    ensures Highlighted(item, route) ==> OnClick(item) == [Navigate(route)]
  {
    match item
    case HomeTab => route == "home"
    case AboutTab => route == "about"
    case _ => false
  }

  /** At most one control is highlighted, and only one of the two tabs. */
  lemma AtMostOneHighlighted(route: string, a: Item, b: Item)
    requires Highlighted(a, route) && Highlighted(b, route)
    ensures a == b
    ensures a == HomeTab || a == AboutTab
  {
  }

  /** `handleLogout` calls `logout` and then navigates home; every other
      control navigates. */
  function OnClick(item: Item): (es: seq<Effect>)
    ensures item == LogoutButton <==> Logout in es
    ensures |es| > 0 && es[|es| - 1].Navigate?
  {
    match item
    case Brand => [Navigate("home")]
    case HomeTab => [Navigate("home")]
    case AboutTab => [Navigate("about")]
    case ProfileButton => [Navigate("profile")]
    case LogoutButton => [Logout, Navigate("home")]
    case LoginButton => [Navigate("login")]
  }

  /** A tab is highlighted exactly when clicking it would navigate to the
      current route, and it is shown whatever the session. */
  lemma TabHighlightedIffCurrent(item: Item, route: string, isAuthenticated: bool)
    requires item == HomeTab || item == AboutTab
    ensures Highlighted(item, route) <==> OnClick(item) == [Navigate(route)]
    ensures item in Items(isAuthenticated)
  {
  }

  function Click(w: World, item: Item, logout: Auth -> Auth): World
  {
    Apply(w, OnClick(item), logout)
  }

  /** Logging out applies `logout` to the session and lands on the home
      route; the brand and the Home tab also land there. */
  lemma LogoutGoesHome(w: World, logout: Auth -> Auth)
    ensures Click(w, LogoutButton, logout).auth == logout(w.auth)
    ensures Click(w, LogoutButton, logout).router.route == "home"
    ensures Click(w, Brand, logout) == Click(w, HomeTab, logout)
    ensures Click(w, HomeTab, logout).router.route == "home"
    ensures Click(w, HomeTab, logout).auth == w.auth
  {
    var w1 := w.(auth := logout(w.auth));
    assert Click(w, LogoutButton, logout) == Apply(w1, [Navigate("home")], logout);
  }
}
