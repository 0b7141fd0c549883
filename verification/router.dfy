/** The hash router (RouterContext.jsx): one current route kept in step
    with the address fragment. The browser delivers `hashchange` events
    asynchronously, so a fragment change queues an event and delivering it
    is a separate step. */
module Router {
  import opened Base

  const DefaultRoute: string := "home"

  /** The router state together with the part of the browser it talks to:
      the fragment (the text after `#`), whether the `hashchange` listener
      is installed, and how many `hashchange` events are queued. */
  datatype Router = Router(route: string, fragment: string, subscribed: bool, pending: nat)

  /** `hash || 'home'`. */
  function RouteFor(fragment: string): (r: string)
    ensures r != ""
    ensures fragment != "" ==> r == fragment
    ensures fragment == "" ==> r == DefaultRoute
  {
    if fragment == "" then DefaultRoute else fragment
  }

  /** The provider's initial state: the route from the fragment, and the
      listener installed by the mount effect. */
  function Init(fragment: string): (r: Router)
    ensures r.route != ""
    ensures r.route == (if fragment == "" then "home" else fragment)
    ensures r.fragment == fragment && r.subscribed && r.pending == 0
  {
    Router(RouteFor(fragment), fragment, true, 0)
  }

  /** The fragment after `location.hash = value`: one leading `#` is
      dropped. */
  function FragmentAfterAssign(value: string): (f: string)
    ensures |value| > 0 && value[0] == '#' ==> f == value[1..]
    ensures !(|value| > 0 && value[0] == '#') ==> f == value
  {
    if |value| > 0 && value[0] == '#' then value[1..] else value
  }

  /** `navigate(route)`: writes the fragment and sets the route to exactly
      `route`, whatever it is. A changed fragment queues a `hashchange`. */
  function Navigate(s: Router, route: string): (r: Router)
    ensures r.route == route
    ensures r.fragment == FragmentAfterAssign(route)
    ensures r.subscribed == s.subscribed
    ensures r.pending == s.pending + (if r.fragment != s.fragment then 1 else 0)
  {
    var f := FragmentAfterAssign(route);
    Router(route, f, s.subscribed, s.pending + if f != s.fragment then 1 else 0)
  }

  /** The fragment changes by other means (back, forward, an edited
      address). The route is not touched until the event is delivered. */
  function FragmentChanged(s: Router, fragment: string): (r: Router)
    ensures r.route == s.route && r.fragment == fragment && r.subscribed == s.subscribed
    ensures r.pending == s.pending + (if fragment != s.fragment then 1 else 0)
  {
    Router(s.route, fragment, s.subscribed, s.pending + if fragment != s.fragment then 1 else 0)
  }

  /** Delivery of one queued `hashchange`: while the listener is installed,
      `handleHashChange` sets the route from the current fragment. */
  function DeliverHashChange(s: Router): (r: Router)
    ensures s.pending == 0 ==> r == s
    ensures s.pending > 0 && s.subscribed ==> r.route == RouteFor(s.fragment) && r.route != ""
    ensures s.pending > 0 ==> r.pending == s.pending - 1
    ensures !s.subscribed ==> r.route == s.route
    ensures r.fragment == s.fragment && r.subscribed == s.subscribed
  {
    if s.pending == 0 then s
    else Router(if s.subscribed then RouteFor(s.fragment) else s.route, s.fragment, s.subscribed, s.pending - 1)
  }

  /** The effect's cleanup: the listener is removed. */
  function Teardown(s: Router): (r: Router)
    ensures !r.subscribed && r.route == s.route && r.fragment == s.fragment
  {
    s.(subscribed := false)
  }

  datatype Event =
    | NavigateTo(route: string)
    | FragmentSet(fragment: string)
    | Deliver
    | Unmount

  function Step(s: Router, e: Event): Router
  {
    match e
    case NavigateTo(route) => Navigate(s, route)
    case FragmentSet(f) => FragmentChanged(s, f)
    case Deliver => DeliverHashChange(s)
    case Unmount => Teardown(s)
  }

  function Run(s: Router, evs: seq<Event>): Router
    decreases |evs|
  {
    if |evs| == 0 then s else Run(Step(s, evs[0]), evs[1..])
  }

  /** A non-empty route only becomes empty through `navigate("")`. */
  lemma {:induction false} EmptyRouteNeedsNavigate(s: Router, evs: seq<Event>)
    requires s.route != ""
    ensures Run(s, evs).route == "" ==> exists i :: 0 <= i < |evs| && evs[i] == NavigateTo("")
    decreases |evs|
  {
    if |evs| > 0 {
      var s' := Step(s, evs[0]);
      if evs[0] == NavigateTo("") {
      } else {
        assert s'.route != "";
        EmptyRouteNeedsNavigate(s', evs[1..]);
        if Run(s, evs).route == "" {
          var i :| 0 <= i < |evs[1..]| && evs[1..][i] == NavigateTo("");
          assert evs[i + 1] == NavigateTo("");
        }
      }
    }
  }

  /** Starting from the initial state, an empty route can only come from
      `navigate("")`. */
  lemma InitialRouteNeverEmpty(fragment: string, evs: seq<Event>)
    ensures Run(Init(fragment), evs).route == "" ==> exists i :: 0 <= i < |evs| && evs[i] == NavigateTo("")
  {
    EmptyRouteNeedsNavigate(Init(fragment), evs);
  }

  /** Once torn down, fragment changes and their events no longer move the
      route. */
  lemma {:induction false} TornDownIgnoresFragments(s: Router, evs: seq<Event>)
    requires !s.subscribed
    requires forall i :: 0 <= i < |evs| ==> !evs[i].NavigateTo?
    ensures Run(s, evs).route == s.route
    decreases |evs|
  {
    if |evs| > 0 {
      var s' := Step(s, evs[0]);
      assert s'.route == s.route && !s'.subscribed;
      TornDownIgnoresFragments(s', evs[1..]);
    }
  }

  /** `navigate(r)` followed by delivery of every queued event leaves the
      route at `r` for any route that does not start with `#`, and at
      `"home"` for `r == ""` when the fragment had to change. */
  lemma NavigateThenDeliver(s: Router, route: string)
    requires s.subscribed && s.pending == 0
    ensures var t := DeliverHashChange(Navigate(s, route));
      && (route != "" && route[0] != '#' ==> t.route == route)
      && (route == "" && s.fragment != "" ==> t.route == DefaultRoute)
      && (route == "" && s.fragment == "" ==> t.route == "")
  {
  }

  const OutsideProviderError: string := "useRouter must be used within RouterProvider"

  /** `useRouter()`: the context when inside a provider, an error otherwise. */
  function UseRouter(context: Option<Router>): (r: Result<Router, string>)
    ensures context.None? <==> r.Failure?
    ensures r.Failure? ==> r.error == OutsideProviderError
    ensures context.Some? ==> r == Success(context.value)
  {
    match context
    case None => Failure(OutsideProviderError)
    case Some(c) => Success(c)
  }
}
