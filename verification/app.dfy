/** View dispatch (`renderPage` in App.jsx): the current route selects one
    of nine pages, `Home` for anything unrecognised, always inside the
    layout. */
module App {
  import Router

  datatype Page =
    | Home | About | Login | Signup | UploadForm | UploadDocuments | EditForm | Profile | Download

  /** The route name each page is registered under. */
  function RouteName(p: Page): string
  {
    match p
    case Home => "home"
    case About => "about"
    case Login => "login"
    case Signup => "signup"
    case UploadForm => "upload-form"
    case UploadDocuments => "upload-documents"
    case EditForm => "edit-form"
    case Profile => "profile"
    case Download => "download"
  }

  const KnownRoutes: set<string> :=
    {"home", "about", "login", "signup", "upload-form", "upload-documents", "edit-form", "profile", "download"}

  /** `renderPage()`: the page whose name is the route, `Home` by default. */
  function PageFor(route: string): (p: Page)
    ensures route in KnownRoutes ==> RouteName(p) == route
    ensures p == Home <==> route == "home" || route !in KnownRoutes
  {
    match route
    case "about" => About
    case "login" => Login
    case "signup" => Signup
    case "upload-form" => UploadForm
    case "upload-documents" => UploadDocuments
    case "edit-form" => EditForm
    case "profile" => Profile
    case "download" => Download
    case _ => Home
  }

  /** Each page is reached from its own name, and the nine names are the
      known routes. */
  lemma DispatchRoundTrip(p: Page)
    ensures PageFor(RouteName(p)) == p
    ensures RouteName(p) in KnownRoutes
  {
  }

  /** Distinct pages have distinct names. */
  lemma RouteNamesDistinct(p: Page, q: Page)
    requires RouteName(p) == RouteName(q)
    ensures p == q
  {
  }

  /** What the application shows: the layout (navbar, chatbot) around the
      selected page. */
  datatype Screen = Layout(page: Page)

  function AppContent(route: string): Screen
  {
    Layout(PageFor(route))
  }

  /** An unknown route accepted by `navigate` falls back to the home page. */
  lemma UnknownRouteShowsHome(s: Router.Router)
    ensures AppContent(Router.Navigate(s, "unknown-route-xyz").route) == Layout(Home)
  {
  }
}
