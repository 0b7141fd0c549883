/** What a click handler does outside its own component: navigate, raise a
    browser alert, or call the authentication context's `logout`. */
module Effects {
  import Router

  datatype Effect =
    | Navigate(route: string)
    | Alert(message: string)
    | Logout

  /** Authentication is provided by a context this model does not contain;
      only the flag and the user's display fields are used here. */
  datatype User = User(name: string, email: string)
  datatype Auth = Auth(isAuthenticated: bool, user: User)

  /** The browser-visible state the effects act on. */
  datatype World = World(router: Router.Router, auth: Auth, alerts: seq<string>)

  /** Applies the effects in order; `logout` is the context's own action. */
  function Apply(w: World, es: seq<Effect>, logout: Auth -> Auth): World
    decreases |es|
  {
    if |es| == 0 then w
    else
      var w' := match es[0]
        case Navigate(r) => w.(router := Router.Navigate(w.router, r))
        case Alert(m) => w.(alerts := w.alerts + [m])
        case Logout => w.(auth := logout(w.auth));
      Apply(w', es[1..], logout)
  }

  /** A single navigation leaves the route at its target and touches
      nothing else. */
  lemma ApplyNavigate(w: World, route: string, logout: Auth -> Auth)
    ensures Apply(w, [Navigate(route)], logout).router == Router.Navigate(w.router, route)
    ensures Apply(w, [Navigate(route)], logout).router.route == route
    ensures Apply(w, [Navigate(route)], logout).auth == w.auth
    ensures Apply(w, [Navigate(route)], logout).alerts == w.alerts
  {
  }
}
