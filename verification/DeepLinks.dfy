/**
 * Which window owns navigation, and when a kubus:// link is pushed to it, held for it, or opens a
 * new window.
 */
module DeepLinks {

  import opened Optional

  type Window = nat

  // ---- Links -------------------------------------------------------------------------------------

  const SCHEME := "kubus://"

  function RouteOf(raw: string): Option<string>
  {
    if !(SCHEME <= raw) then None
    else
      var rest := raw[|SCHEME|..];
      var route := if "/" <= rest then rest else "/" + rest;
      if "//" <= route then None else Some(route)
  }

  predicate InApp(route: string)
  {
    "/" <= route && !("//" <= route)
  }

  /** Only routes of the app itself come out, and every one of them has its links. */
  lemma RoutesExactly(raw: string, route: string)
    ensures RouteOf(raw) == Some(route)
       <==> InApp(route) && (raw == "kubus://" + route || raw == "kubus://" + route[1..])
  {
    assert (SCHEME + route)[|SCHEME|..] == route;
    if "/" <= route {
      assert (SCHEME + route[1..])[|SCHEME|..] == route[1..] && route == "/" + route[1..];
    }
    if SCHEME <= raw {
      var rest := raw[|SCHEME|..];
      assert raw == SCHEME + rest && ("/" + rest)[1..] == rest;
    }
  }

  // ---- The variables of the main process --------------------------------------------------------

  /** An accepted route, numbered in the order of arrival. */
  datatype Held = Held(id: nat, route: string)

  datatype Delivery = Delivery(id: nat, route: string, to: Window, pushed: bool)

  /** A held route that gave way, to a later one or to a malformed link on the command line. */
  datatype Loss = Loss(id: nat, to: Option<nat>)

  /** `applications` lists the application windows, oldest first. */
  datatype Main = Main(
    primary: Option<Window>,
    serving: bool,
    managed: set<Window>,
    applications: seq<Window>,
    routeReady: set<Window>,
    pending: Option<Held>,
    accepted: nat,
    delivered: seq<Delivery>,
    lost: seq<Loss>)

  const COLD := Main(None, false, {}, [], {}, None, 0, [], [])

  function CreateWindow(m: Main, w: Window, application: bool): Main
  {
    m.(managed := m.managed + {w},
       applications := if application then m.applications + [w] else m.applications,
       primary := if application && m.primary.None? then Some(w) else m.primary)
  }

  function LossOf(m: Main, successor: Option<nat>): seq<Loss>
  {
    if m.pending.Some? then [Loss(m.pending.value.id, successor)] else []
  }

  function Hold(m: Main, route: string): Main
  {
    m.(pending := Some(Held(m.accepted, route)), accepted := m.accepted + 1,
       lost := m.lost + LossOf(m, Some(m.accepted)))
  }

  /** `w` is the window that is created when there is none to navigate. */
  function OpenRoute(m: Main, route: string, w: Window): Main
  {
    if m.primary.None? then
      var held := Hold(m, route);
      if m.serving then CreateWindow(held, w, true) else held
    else if m.primary.value in m.routeReady then
      m.(accepted := m.accepted + 1,
         delivered := m.delivered + [Delivery(m.accepted, route, m.primary.value, true)])
    else Hold(m, route)
  }

  function Without(windows: seq<Window>, w: Window): seq<Window>
  {
    if windows == [] then []
    else (if windows[0] == w then [] else [windows[0]]) + Without(windows[1..], w)
  }

  function Oldest(windows: seq<Window>): Option<Window>
  {
    if windows == [] then None else Some(windows[0])
  }

  function OnClosed(m: Main, w: Window): Main
  {
    var rest := Without(m.applications, w);
    m.(managed := m.managed - {w}, applications := rest, routeReady := m.routeReady - {w},
       primary := if m.primary == Some(w) then Oldest(rest) else m.primary)
  }

  function OnStartLoading(m: Main, w: Window): Main
  {
    m.(routeReady := m.routeReady - {w})
  }

  function GetPendingRoute(m: Main, w: Window): (Main, Option<string>)
  {
    if w !in m.managed || w !in m.applications then (m, None)
    else
      var ready := m.(routeReady := m.routeReady + {w});
      if m.primary != Some(w) || m.pending.None? then (ready, None)
      else
        var held := m.pending.value;
        (ready.(pending := None, delivered := m.delivered + [Delivery(held.id, held.route, w, false)]),
            Some(held.route))
  }

  /** A link on the command line of the first instance; a malformed one clears what was held. */
  function OnLaunch(m: Main, link: Option<string>): Main
  {
    if link.None? then m
    else
      match RouteOf(link.value)
      case Some(route) => Hold(m, route)
      case None => m.(pending := None, lost := m.lost + LossOf(m, None))
  }

  lemma RemoveNext(rest: seq<Window>, windows: seq<Window>, w: Window)
    requires windows != []
    ensures rest + Without(windows, w) == (if windows[0] == w then rest else rest + [windows[0]])
            + Without(windows[1..], w)
  {
    var more := Without(windows[1..], w);
    assert [] + more == more && rest + ([windows[0]] + more) == rest + [windows[0]] + more;
  }

  method Remove(windows: seq<Window>, w: Window) returns (rest: seq<Window>)
    ensures rest == Without(windows, w)
  {
    rest := [];
    for i := 0 to |windows|
      invariant rest + Without(windows[i..], w) == Without(windows, w)
    {
      RemoveNext(rest, windows[i..], w);
      assert windows[i..][1..] == windows[i + 1..];
      if windows[i] != w {
        rest := rest + [windows[i]];
      }
    }
  }

  /** The variables, changed in place by window events and IPC handlers. */
  class Ownership {
    var primaryWindow: Option<Window>
    var serving: bool
    var managedWindows: set<Window>
    var applicationWindows: seq<Window>
    var routeReadyWindows: set<Window>
    var pendingRoute: Option<Held>
    ghost var accepted: nat
    ghost var delivered: seq<Delivery>
    ghost var lost: seq<Loss>
    var links: nat

    ghost function State(): Main
      reads this
    {
      Main(primaryWindow, serving, managedWindows, applicationWindows, routeReadyWindows, pendingRoute, accepted,
          delivered, lost)
    }

    ghost predicate Valid()
      reads this
    {
      links == accepted
    }

    constructor ()
      ensures State() == COLD && Valid()
    {
      primaryWindow, serving, managedWindows, applicationWindows, routeReadyWindows := None, false, {}, [], {};
      pendingRoute, accepted, delivered, lost, links := None, 0, [], [], 0;
    }

    method NewWindow(w: Window, application: bool)
      requires Valid()
      modifies this
      ensures Valid() && State() == CreateWindow(old(State()), w, application)
    {
      var isPrimary := application && primaryWindow.None?;
      managedWindows := managedWindows + {w};
      if application {
        applicationWindows := applicationWindows + [w];
      }
      if isPrimary {
        primaryWindow := Some(w);
      }
    }

    method HoldRoute(route: string)
      requires Valid()
      modifies this
      ensures Valid() && State() == Hold(old(State()), route)
    {
      lost := lost + LossOf(State(), Some(accepted));
      pendingRoute := Some(Held(links, route));
      links, accepted := links + 1, accepted + 1;
    }

    method Open(route: string, w: Window) returns (push: Option<(Window, string)>)
      requires Valid()
      modifies this
      ensures Valid() && State() == OpenRoute(old(State()), route, w)
      ensures push == if old(primaryWindow).Some? && old(primaryWindow).value in routeReadyWindows
                      then Some((old(primaryWindow).value, route)) else None
    {
      push := None;
      match primaryWindow {
        case None =>
          HoldRoute(route);
          if serving {
            NewWindow(w, true);
          }
        case Some(win) =>
          if win in routeReadyWindows {
            push := Some((win, route));
            delivered := delivered + [Delivery(accepted, route, win, true)];
            links, accepted := links + 1, accepted + 1;
          } else {
            HoldRoute(route);
          }
      }
    }

    method Closed(w: Window)
      requires Valid()
      modifies this
      ensures Valid() && State() == OnClosed(old(State()), w)
    {
      managedWindows, routeReadyWindows := managedWindows - {w}, routeReadyWindows - {w};
      var rest := Remove(applicationWindows, w);
      applicationWindows := rest;
      if primaryWindow == Some(w) {
        primaryWindow := if applicationWindows == [] then None else Some(applicationWindows[0]);
      }
    }

    method StartLoading(w: Window)
      requires Valid()
      modifies this
      ensures Valid() && State() == OnStartLoading(old(State()), w)
    {
      routeReadyWindows := routeReadyWindows - {w};
    }

    method PullRoute(w: Window) returns (route: Option<string>)
      requires Valid()
      modifies this
      ensures Valid() && (State(), route) == GetPendingRoute(old(State()), w)
      ensures route.Some? ==> old(pendingRoute).Some? && route.value == old(pendingRoute).value.route
                              && pendingRoute.None? && old(primaryWindow) == Some(w)
      ensures route.None? ==> pendingRoute == old(pendingRoute)
    {
      route := None;
      if w !in managedWindows || w !in applicationWindows {
        return;
      }
      routeReadyWindows := routeReadyWindows + {w};
      if primaryWindow != Some(w) {
        return;
      }
      match pendingRoute {
        case None =>
        case Some(held) =>
          route := Some(held.route);
          delivered := delivered + [Delivery(held.id, held.route, w, false)];
          pendingRoute := None;
      }
    }
  }

  // ---- Runs --------------------------------------------------------------------------------------

  datatype Event =
    | Launch(link: Option<string>)
    | ServerStarted(w: Window)
    | Link(raw: string, w: Window)
    | OpenWindow(w: Window, application: bool)
    | Closed(w: Window)
    | StartLoading(w: Window)
    | Pull(w: Window)

  predicate Enabled(m: Main, ev: Event)
  {
    match ev
    case Launch(_) => !m.serving
    case ServerStarted(w) => !m.serving && w !in m.managed
    case Link(_, w) => w !in m.managed
    case OpenWindow(w, _) => m.serving && w !in m.managed
    case Closed(w) => w in m.managed
    case StartLoading(w) => w in m.managed
    case Pull(_) => true
  }

  function Step(m: Main, ev: Event): Main
  {
    match ev
    case Launch(link) => OnLaunch(m, link)
    case ServerStarted(w) => CreateWindow(m.(serving := true), w, true)
    case Link(raw, w) => if RouteOf(raw).Some? then OpenRoute(m, RouteOf(raw).value, w) else m
    case OpenWindow(w, application) => CreateWindow(m, w, application)
    case Closed(w) => OnClosed(m, w)
    case StartLoading(w) => OnStartLoading(m, w)
    case Pull(w) => GetPendingRoute(m, w).0
  }

  ghost predicate Next(states: seq<Main>, events: seq<Event>, i: nat)
    requires |states| == |events| + 1 && i < |events|
  {
    Enabled(states[i], events[i]) && states[i + 1] == Step(states[i], events[i])
  }

  ghost predicate Run(states: seq<Main>, events: seq<Event>)
  {
    |states| == |events| + 1 && states[0] == COLD && forall i: nat | i < |events| :: Next(states, events, i)
  }

  // ---- Ownership -----------------------------------------------------------------------------------

  ghost predicate Distinct(windows: seq<Window>)
  {
    forall i, j | 0 <= i < j < |windows| :: windows[i] != windows[j]
  }

  ghost predicate Owned(m: Main)
  {
    && (m.primary.None? <==> m.applications == [])
    && (m.primary.Some? ==> m.primary.value in m.applications)
    && (forall w | w in m.routeReady :: w in m.applications)
    && (forall w | w in m.applications :: w in m.managed)
    && Distinct(m.applications)
    && (!m.serving ==> m.managed == {})
  }

  lemma {:induction false} WithoutWindow(windows: seq<Window>, w: Window)
    requires Distinct(windows)
    ensures Distinct(Without(windows, w)) && w !in Without(windows, w)
    ensures forall v :: v in Without(windows, w) <==> v in windows && v != w
  {
    if windows != [] {
      WithoutWindow(windows[1..], w);
      var rest := Without(windows[1..], w);
      assert forall v :: v in windows <==> v == windows[0] || v in windows[1..];
      assert windows[0] !in windows[1..];
      assert Without(windows, w) == (if windows[0] == w then [] else [windows[0]]) + rest;
    }
  }

  lemma StepOwned(m: Main, ev: Event)
    requires Owned(m) && Enabled(m, ev)
    ensures Owned(Step(m, ev))
  {
    match ev {
      case Closed(w) =>
        WithoutWindow(m.applications, w);
        if m.applications != [] && Without(m.applications, w) == [] {
          assert m.primary == Some(w) by {
            assert m.primary.value in m.applications;
          }
        }
      case _ =>
    }
  }

  // ---- Every accepted route is in one place ------------------------------------------------------

  ghost function Places(m: Main, id: nat): nat
  {
    multiset(Ids(m.delivered))[id] + multiset(LostIds(m.lost))[id]
      + if m.pending.Some? && m.pending.value.id == id then 1 else 0
  }

  function Ids(delivered: seq<Delivery>): seq<nat>
  {
    if delivered == [] then [] else Ids(delivered[..|delivered| - 1]) + [delivered[|delivered| - 1].id]
  }

  function LostIds(lost: seq<Loss>): seq<nat>
  {
    if lost == [] then [] else LostIds(lost[..|lost| - 1]) + [lost[|lost| - 1].id]
  }

  ghost predicate Placed(m: Main)
  {
    && (forall id: nat :: Places(m, id) == if id < m.accepted then 1 else 0)
    && (forall l | l in m.lost && l.to.Some? :: l.id < l.to.value < m.accepted)
    && (m.pending.Some? ==> InApp(m.pending.value.route))
    && (forall d | d in m.delivered :: InApp(d.route))
  }

  lemma LostAppend(lost: seq<Loss>, l: Loss)
    ensures LostIds(lost + [l]) == LostIds(lost) + [l.id]
  {
    assert (lost + [l])[..|lost|] == lost;
  }

  lemma DeliveredAppend(delivered: seq<Delivery>, d: Delivery)
    ensures Ids(delivered + [d]) == Ids(delivered) + [d.id]
  {
    assert (delivered + [d])[..|delivered|] == delivered;
  }

  /** Losing the held route, if any, moves it from one place to another. */
  lemma LosePlaces(m: Main, successor: Option<nat>, id: nat)
    ensures Places(m.(pending := None, lost := m.lost + LossOf(m, successor)), id) == Places(m, id)
  {
    if m.pending.Some? {
      LostAppend(m.lost, Loss(m.pending.value.id, successor));
    } else {
      assert m.lost + [] == m.lost;
    }
  }

  lemma HoldPlaces(m: Main, route: string, id: nat)
    ensures Places(Hold(m, route), id) == Places(m, id) + if id == m.accepted then 1 else 0
  {
    LosePlaces(m, Some(m.accepted), id);
  }

  lemma HoldPlaced(m: Main, route: string)
    requires Placed(m) && InApp(route)
    ensures Placed(Hold(m, route))
  {
    forall id: nat ensures Places(Hold(m, route), id) == if id < m.accepted + 1 then 1 else 0 {
      HoldPlaces(m, route, id);
    }
    if m.pending.Some? {
      assert Places(m, m.pending.value.id) >= 1;
    }
  }

  lemma ClearPlaced(m: Main)
    requires Placed(m)
    ensures Placed(m.(pending := None, lost := m.lost + LossOf(m, None)))
  {
    forall id: nat
      ensures Places(m.(pending := None, lost := m.lost + LossOf(m, None)), id) == if id < m.accepted then 1 else 0
    {
      LosePlaces(m, None, id);
    }
  }

  function Pushed(m: Main, w: Window, route: string): Main
  {
    m.(accepted := m.accepted + 1, delivered := m.delivered + [Delivery(m.accepted, route, w, true)])
  }

  lemma PushPlaces(m: Main, w: Window, route: string, id: nat)
    ensures Places(Pushed(m, w, route), id) == Places(m, id) + if id == m.accepted then 1 else 0
  {
    DeliveredAppend(m.delivered, Delivery(m.accepted, route, w, true));
  }

  lemma PushPlaced(m: Main, w: Window, route: string)
    requires Placed(m) && InApp(route)
    ensures Placed(Pushed(m, w, route))
  {
    forall id: nat ensures Places(Pushed(m, w, route), id) == if id < m.accepted + 1 then 1 else 0 {
      PushPlaces(m, w, route, id);
    }
  }

  function Pulled(m: Main, w: Window): Main
    requires m.pending.Some?
  {
    m.(pending := None, delivered := m.delivered + [Delivery(m.pending.value.id, m.pending.value.route, w, false)])
  }

  lemma PullPlaced(m: Main, w: Window)
    requires Placed(m) && m.pending.Some?
    ensures Placed(Pulled(m, w))
  {
    DeliveredAppend(m.delivered, Delivery(m.pending.value.id, m.pending.value.route, w, false));
    assert forall id: nat :: Places(Pulled(m, w), id) == Places(m, id);
  }

  lemma SamePlaces(m: Main, m': Main)
    requires Placed(m)
    requires m'.pending == m.pending && m'.accepted == m.accepted && m'.delivered == m.delivered && m'.lost == m.lost
    ensures Placed(m')
  {
    assert forall id: nat :: Places(m', id) == Places(m, id);
  }

  lemma LinkPlaced(m: Main, route: string, w: Window)
    requires Placed(m) && InApp(route)
    ensures Placed(OpenRoute(m, route, w))
  {
    if m.primary.None? {
      HoldPlaced(m, route);
      SamePlaces(Hold(m, route), OpenRoute(m, route, w));
    } else if m.primary.value in m.routeReady {
      PushPlaced(m, m.primary.value, route);
    } else {
      HoldPlaced(m, route);
    }
  }

  lemma StepPlaced(m: Main, ev: Event)
    requires Placed(m) && Enabled(m, ev)
    ensures Placed(Step(m, ev))
  {
    match ev {
      case Launch(link) =>
        if link.Some? {
          ClearPlaced(m);
          if RouteOf(link.value).Some? {
            RoutesExactly(link.value, RouteOf(link.value).value);
            HoldPlaced(m, RouteOf(link.value).value);
          }
        }
      case Link(raw, w) =>
        if RouteOf(raw).Some? {
          RoutesExactly(raw, RouteOf(raw).value);
          LinkPlaced(m, RouteOf(raw).value, w);
        }
      case Pull(w) =>
        if m.pending.Some? {
          PullPlaced(m, w);
        }
        if Step(m, ev).pending == m.pending {
          SamePlaces(m, Step(m, ev));
        } else {
          SamePlaces(Pulled(m, w), Step(m, ev));
        }
      case _ => SamePlaces(m, Step(m, ev));
    }
  }

  lemma {:induction false} RunKeeps(states: seq<Main>, events: seq<Event>, k: nat)
    requires Run(states, events) && k < |states|
    ensures Owned(states[k]) && Placed(states[k])
  {
    if k > 0 {
      RunKeeps(states, events, k - 1);
      assert Next(states, events, k - 1);
      StepOwned(states[k - 1], events[k - 1]);
      StepPlaced(states[k - 1], events[k - 1]);
    } else {
      assert forall id: nat :: Places(COLD, id) == 0;
    }
  }

  // ---- Main results ----------------------------------------------------------------------------

  /** Navigation has an owner exactly when an application window exists. */
  lemma OwnerExactly(states: seq<Main>, events: seq<Event>, k: nat)
    requires Run(states, events) && k < |states|
    ensures var m := states[k];
            && (m.primary.None? <==> m.applications == [])
            && (m.primary.Some? ==> m.primary.value in m.applications)
            && (forall w | w in m.routeReady :: w in m.applications)
                 && (forall w | w in m.applications :: w in m.managed)
  {
    RunKeeps(states, events, k);
  }

  /**
   * Every accepted route has been sent once, is held, or gave way to a later route or to a malformed
   * link on the command line: exactly one of these, and once.
   */
  lemma RoutesAreConserved(states: seq<Main>, events: seq<Event>, k: nat, id: nat)
    requires Run(states, events) && k < |states|
    ensures Places(states[k], id) == if id < states[k].accepted then 1 else 0
    ensures forall l | l in states[k].lost && l.to.Some? :: l.id < l.to.value < states[k].accepted
    ensures forall d | d in states[k].delivered :: InApp(d.route)
  {
    RunKeeps(states, events, k);
  }

  /** The window was neither loaded again nor closed. */
  ghost predicate StaysLoaded(events: seq<Event>, j: nat, k: nat, w: Window)
    requires k <= |events|
  {
    forall i | j <= i < k :: events[i] != StartLoading(w) && events[i] != Closed(w)
  }

  /** The window has pulled since it was last loaded. */
  ghost predicate PulledSince(events: seq<Event>, k: nat, w: Window)
    requires k <= |events|
  {
    exists j: nat :: j < k && events[j] == Pull(w) && StaysLoaded(events, j, k, w)
  }

  lemma {:induction false} ReadyHasPulled(states: seq<Main>, events: seq<Event>, k: nat, w: Window)
    requires Run(states, events) && k < |states| && w in states[k].routeReady
    ensures PulledSince(events, k, w)
  {
    assert k > 0;
    assert Next(states, events, k - 1);
    if events[k - 1] != Pull(w) {
      ReadyHasPulled(states, events, k - 1, w);
      var j: nat :| j < k - 1 && events[j] == Pull(w) && StaysLoaded(events, j, k - 1, w);
      assert PulledSince(events, k, w);
    }
  }

  /** A route is pushed only to the owner, and only if that window has pulled since its last load. */
  lemma PushedOnlyWhenReady(states: seq<Main>, events: seq<Event>, k: nat)
    requires Run(states, events) && k < |events|
    requires |states[k + 1].delivered| > |states[k].delivered| && states[k + 1].delivered[|states[k].delivered|].pushed
    ensures var d := states[k + 1].delivered[|states[k].delivered|];
            && states[k].primary == Some(d.to) && PulledSince(events, k, d.to)
            && events[k].Link? && RouteOf(events[k].raw) == Some(d.route)
  {
    assert Next(states, events, k);
    ReadyHasPulled(states, events, k, states[k].primary.value);
  }

  /** The route that a link or a launch asks for. */
  function Asked(ev: Event): Option<string>
  {
    match ev
    case Launch(Some(raw)) => RouteOf(raw)
    case Link(raw, _) => RouteOf(raw)
    case _ => None
  }

  /** Route number `id` was accepted from a link that asks for `route`. */
  ghost predicate Comes(states: seq<Main>, events: seq<Event>, k: nat, id: nat, route: string)
    requires |states| == |events| + 1 && k <= |events|
  {
    exists i: nat :: i < k && states[i].accepted == id && Asked(events[i]) == Some(route)
  }

  ghost predicate AllCome(states: seq<Main>, events: seq<Event>, k: nat)
    requires |states| == |events| + 1 && k <= |events|
  {
    && (states[k].pending.Some? ==> Comes(states, events, k, states[k].pending.value.id, states[k].pending.value.route))
    && forall d | d in states[k].delivered :: Comes(states, events, k, d.id, d.route)
  }

  lemma {:induction false} RoutesCome(states: seq<Main>, events: seq<Event>, k: nat)
    requires Run(states, events) && k <= |events|
    ensures AllCome(states, events, k)
  {
    if k > 0 {
      RoutesCome(states, events, k - 1);
      assert Next(states, events, k - 1);
      forall id, route | Comes(states, events, k - 1, id, route) ensures Comes(states, events, k, id, route) {
      }
      if Asked(events[k - 1]).Some? {
        assert Comes(states, events, k, states[k - 1].accepted, Asked(events[k - 1]).value);
      }
    }
  }

  /**
   * The window that asks is handed a route exactly if it owns navigation and one is held: the route
   * of the very link that was accepted under that number, once, and no longer held.
   */
  lemma HandedExactly(states: seq<Main>, events: seq<Event>, k: nat, w: Window)
    requires Run(states, events) && k < |events| && events[k] == Pull(w)
    ensures var m, next, route := states[k], states[k + 1], GetPendingRoute(states[k], w).1;
            && (route.Some? <==> m.primary == Some(w) && m.pending.Some?)
            && (route.None? ==> next.pending == m.pending && next.delivered == m.delivered)
            && (route.Some? ==> next.pending.None? && Comes(states, events, k, m.pending.value.id, route.value)
                                && next.delivered == m.delivered
                                                     + [Delivery(m.pending.value.id, route.value, w, false)])
  {
    assert Next(states, events, k);
    RunKeeps(states, events, k);
    RoutesCome(states, events, k);
  }

  /**
   * A link is pushed to the owner at once or held for the next window to ask; once the server is up
   * there is a window to navigate, opened if need be.
   */
  lemma LinkFindsWindow(states: seq<Main>, events: seq<Event>, k: nat, route: string)
    requires Run(states, events) && k < |events| && Asked(events[k]) == Some(route)
    ensures var m, next := states[k], states[k + 1];
            && next.accepted == m.accepted + 1 && next.serving == m.serving
            && (m.serving ==> next.primary.Some?)
            && (next.pending == Some(Held(m.accepted, route))
                || (m.primary.Some? && next.pending == m.pending
                    && next.delivered == m.delivered + [Delivery(m.accepted, route, m.primary.value, true)]))
            && (events[k].Link? && m.primary.None? && m.serving ==>
                  next.primary == Some(events[k].w) && next.applications == [events[k].w])
            && (m.primary.Some? ==> next.primary == m.primary && next.applications == m.applications)
  {
    assert Next(states, events, k);
    RunKeeps(states, events, k);
  }

  /** A closed window is gone everywhere, and no other window goes with it. */
  lemma ClosedIsGone(states: seq<Main>, events: seq<Event>, k: nat, w: Window)
    requires Run(states, events) && k < |events| && events[k] == Closed(w)
    ensures var m, next := states[k], states[k + 1];
            && w !in next.managed && w !in next.applications && w !in next.routeReady && next.primary != Some(w)
            && forall v | v != w ::
                 && (v in next.managed <==> v in m.managed) && (v in next.applications <==> v in m.applications)
                 && (v in next.routeReady <==> v in m.routeReady)
                 && (m.primary == Some(v) ==> next.primary == Some(v))
  {
    assert Next(states, events, k);
    RunKeeps(states, events, k);
    WithoutWindow(states[k].applications, w);
    RunKeeps(states, events, k + 1);
  }

  // ---- Held routes are waited for, with one exception ------------------------------------------

  /** Whoever owns navigation while a route is held has still to pull it. */
  ghost predicate Awaited(m: Main)
  {
    m.pending.Some? && m.primary.Some? ==> m.primary.value !in m.routeReady
  }

  /** The owner closes while a route is held, and its successor has long pulled. */
  predicate Strands(m: Main, ev: Event)
  {
    && ev.Closed? && m.primary == Some(ev.w) && m.pending.Some?
    && var next := Oldest(Without(m.applications, ev.w));
       next.Some? && next.value in m.routeReady
  }

  /** A held route stops being awaited exactly when such an owner closes. */
  lemma StrandedExactly(m: Main, ev: Event)
    requires Owned(m) && Awaited(m) && Enabled(m, ev)
    ensures Awaited(Step(m, ev)) <==> !Strands(m, ev)
  {
    match ev {
      case Closed(w) => WithoutWindow(m.applications, w);
      case _ =>
    }
  }

  lemma {:induction false} AwaitedUnlessStranded(states: seq<Main>, events: seq<Event>, k: nat)
    requires Run(states, events) && k < |states|
    requires forall i: nat | i < k :: !Strands(states[i], events[i])
    ensures Awaited(states[k])
  {
    if k > 0 {
      AwaitedUnlessStranded(states, events, k - 1);
      RunKeeps(states, events, k - 1);
      assert Next(states, events, k - 1);
      StrandedExactly(states[k - 1], events[k - 1]);
    }
  }

  ghost predicate Reaches(m: Main)
  {
    exists states, events :: Run(states, events) && states[|events|] == m
  }

  lemma ReachesNext(m: Main, ev: Event)
    requires Reaches(m) && Enabled(m, ev)
    ensures Reaches(Step(m, ev))
  {
    var states, events :| Run(states, events) && states[|events|] == m;
    var states', events' := states + [Step(m, ev)], events + [ev];
    forall i: nat | i < |events'| ensures Next(states', events', i) {
      assert i < |events| ==> Next(states, events, i);
    }
    assert Run(states', events') && states'[|events'|] == Step(m, ev);
  }

  /** Two application windows, a reload of the owner, a link, and the owner is closed. */
  lemma RouteCanStrand(raw: string)
    requires RouteOf(raw).Some?
    ensures exists m :: Reaches(m) && !Awaited(m) && m.pending == Some(Held(0, RouteOf(raw).value))
  {
    assert Run([COLD], []) && [COLD][0] == COLD;
    ReachesNext(COLD, ServerStarted(0));
    var one := Main(Some(0), true, {0}, [0], {}, None, 0, [], []);
    ReachesNext(one, Pull(0));
    ReachesNext(one.(routeReady := {0}), OpenWindow(1, true));
    var two := Main(Some(0), true, {0, 1}, [0, 1], {0}, None, 0, [], []);
    ReachesNext(two, Pull(1));
    ReachesNext(two.(routeReady := {0, 1}), StartLoading(0));
    ReloadStrands(two.(routeReady := {1}), raw);
  }

  lemma ReloadStrands(m: Main, raw: string)
    requires m == Main(Some(0), true, {0, 1}, [0, 1], {1}, None, 0, [], []) && Reaches(m) && RouteOf(raw).Some?
    ensures exists m' :: Reaches(m') && !Awaited(m') && m'.pending == Some(Held(0, RouteOf(raw).value))
  {
    ReachesNext(m, Link(raw, 2));
    var held := m.(pending := Some(Held(0, RouteOf(raw).value)), accepted := 1);
    assert Step(m, Link(raw, 2)) == held;
    ReachesNext(held, Closed(0));
    assert Without([0, 1], 0) == [1] by {
      assert [0, 1][1..] == [1] && [1][1..] == [];
    }
    assert !Awaited(Step(held, Closed(0)));
  }
}
