/**
 * Route playback in src/App.jsx: the `isRoutePlaying`, `currentRouteIndex`
 * and `autoZoomEnabled` state, the route button, the one-second tick effect
 * and the end-of-route effect, and the mode buttons that stop playback. The
 * state machine is given by functions on `PlayState`; `RoutePlayer` holds the
 * state and its methods follow those functions. A timer firing is a call to
 * `Tick`; React re-running the end-of-route effect after every state change
 * is `Settle` applied at the end of each transition.
 */
module AppPlayback {
  import opened AnimatedCarMarker

  /** Whether playback runs, the current route position and the route's length. */
  datatype PlayState = PlayState(playing: bool, index: nat, routeLen: nat)

  /** The state the end-of-route effect leaves alone: playing implies a next point to move to. */
  predicate Settled(s: PlayState)
  {
    s.playing ==> s.routeLen == 0 || s.index + 1 < s.routeLen
  }

  /** The end-of-route effect: at or past the last point, playback stops and the index stays. */
  function Settle(s: PlayState): (r: PlayState)
    ensures Settled(r)
    ensures r.index == s.index && r.routeLen == s.routeLen
    ensures r.playing <==> s.playing && Settled(s)
  {
    if s.playing && s.routeLen > 0 && s.index >= s.routeLen - 1 then s.(playing := false) else s
  }

  /** A timer tick: one step forward while there is a next point, then the end-of-route effect. */
  function Advance(s: PlayState): (r: PlayState)
    ensures Settled(r) && r.routeLen == s.routeLen
    ensures Settled(s) && s.playing && s.routeLen > 0 ==> r.index == s.index + 1 && r.index < s.routeLen
    ensures !s.playing ==> r == s
  {
    var t := if s.playing && s.index < s.routeLen - 1 then s.(index := s.index + 1) else s;
    Settle(t)
  }

  /**
   * The route button. While playing it stops and rewinds; otherwise an empty
   * route only raises the alert (the second component), and a non-empty one
   * starts from the first point.
   */
  function Press(s: PlayState): (r: (PlayState, bool))
    ensures Settled(r.0) && r.0.routeLen == s.routeLen
    ensures s.playing ==> r == (PlayState(false, 0, s.routeLen), false)
    ensures !s.playing && s.routeLen == 0 ==> r == (s, true)
    ensures !s.playing && s.routeLen > 0 ==> !r.1 && r.0.index == 0 && (r.0.playing <==> s.routeLen > 1)
  {
    if s.playing then (PlayState(false, 0, s.routeLen), false)
    else if s.routeLen == 0 then (s, true)
    else (Settle(PlayState(true, 0, s.routeLen)), false)
  }

  /** The route changed length (photos added, removed or their metadata loaded). */
  function Rebuild(s: PlayState, n: nat): (r: PlayState)
    ensures Settled(r) && r.routeLen == n && r.index == s.index
    ensures r.playing ==> s.playing
  {
    Settle(s.(routeLen := n))
  }

  /** `k` timer ticks in a row. */
  function Ticks(s: PlayState, k: nat): (r: PlayState)
    ensures r.routeLen == s.routeLen
    ensures r.playing ==> s.playing
    ensures Settled(s) ==> Settled(r)
    decreases k
  {
    if k == 0 then s else Ticks(Advance(s), k - 1)
  }

  /** While the end is not reached each tick moves one point on, and playback stops on the last point. */
  lemma {:induction false} TicksFrom(s: PlayState, k: nat)
    requires s.playing && Settled(s) && s.index + k < s.routeLen
    ensures Ticks(s, k) == PlayState(s.index + k + 1 < s.routeLen, s.index + k, s.routeLen)
    decreases k
  {
    if k > 1 {
      TicksFrom(Advance(s), k - 1);
    }
  }

  /** Pressing play on a route of `n` points and letting `n - 1` ticks pass ends stopped on the last point. */
  lemma PlayThrough(n: nat, i: nat)
    requires n > 0
    ensures Ticks(Press(PlayState(false, i, n)).0, n - 1) == PlayState(false, n - 1, n)
  {
    var started := Press(PlayState(false, i, n)).0;
    if n > 1 {
      TicksFrom(started, n - 1);
    } else {
      assert started == PlayState(false, 0, 1);
    }
  }

  /** Once stopped, further ticks change nothing. */
  lemma {:induction false} StoppedStays(s: PlayState, k: nat)
    requires !s.playing
    ensures Ticks(s, k) == s
    decreases k
  {
    if k > 0 {
      StoppedStays(Advance(s), k - 1);
    }
  }

  /** While playing the index never passes the last point. */
  lemma {:induction false} IndexStaysOnRoute(s: PlayState, k: nat)
    requires Settled(s) && s.playing && s.index < s.routeLen
    ensures Ticks(s, k).index < s.routeLen && Ticks(s, k).routeLen == s.routeLen
    decreases k
  {
    if k > 0 {
      var t := Advance(s);
      if t.playing {
        IndexStaysOnRoute(t, k - 1);
      } else {
        StoppedStays(t, k - 1);
      }
    }
  }

  class RoutePlayer {
    var playing: bool
    var index: nat
    var routeLen: nat
    var autoZoom: bool
    var mapMode: bool
    var boardMode: bool
    /** The car marker, which the route button and the mode buttons reset. */
    var car: CarMarker

    function State(): PlayState
      reads this
    {
      PlayState(playing, index, routeLen)
    }

    ghost predicate Valid()
      reads this, car
    {
      Settled(State()) && car.Valid()
    }

    constructor (n: nat)
      ensures Valid() && State() == PlayState(false, 0, n) && autoZoom && !mapMode && !boardMode
      ensures fresh(car)
    {
      playing, index, routeLen := false, 0, n;
      autoZoom, mapMode, boardMode := true, false, false;
      car := new CarMarker();
    }

    /** `handleRouteAnimation`; returns whether the "no GPS photos" alert was raised. */
    method PressRouteButton() returns (alerted: bool)
      requires Valid()
      modifies this, car
      ensures Valid() && car == old(car)
      ensures (State(), alerted) == Press(old(State()))
      ensures autoZoom == old(autoZoom) && mapMode == old(mapMode) && boardMode == old(boardMode)
      ensures !alerted ==> car.marker.None? && car.prevPos.None? && car.anim.None?
      ensures alerted ==> unchanged(car)
    {
      if playing {
        playing := false;
        index := 0;
        car.Reset();
        alerted := false;
      } else if routeLen == 0 {
        alerted := true;
      } else {
        car.Reset();
        playing := true;
        index := 0;
        alerted := false;
        FinishEffect();
      }
    }

    /** The end-of-route effect: it settles any play state, re-establishing `Valid`. */
    method FinishEffect()
      requires car.Valid()
      modifies this
      ensures Valid()
      ensures State() == Settle(old(State()))
      ensures autoZoom == old(autoZoom) && mapMode == old(mapMode) && boardMode == old(boardMode) && car == old(car)
    {
      if playing && index >= routeLen - 1 && routeLen > 0 {
        playing := false;
      }
    }

    /** The one-second timer of the tick effect fires. */
    method Tick()
      requires Valid()
      modifies this
      ensures Valid() && State() == Advance(old(State()))
      ensures autoZoom == old(autoZoom) && mapMode == old(mapMode) && boardMode == old(boardMode) && car == old(car)
    {
      if playing && index < routeLen - 1 {
        index := index + 1;
      }
      FinishEffect();
    }

    /** The sorted route was recomputed with `n` points. */
    method RouteRebuilt(n: nat)
      requires Valid()
      modifies this
      ensures Valid() && State() == Rebuild(old(State()), n)
      ensures autoZoom == old(autoZoom) && mapMode == old(mapMode) && boardMode == old(boardMode) && car == old(car)
    {
      routeLen := n;
      FinishEffect();
    }

    /** Stop and rewind when leaving map mode, resetting the marker. */
    method StopForModeChange()
      requires Valid()
      modifies this, car
      ensures Valid() && car == old(car)
      ensures State() == PlayState(false, 0, old(routeLen))
      ensures car.marker.None? && car.prevPos.None? && car.anim.None?
      ensures autoZoom == old(autoZoom) && mapMode == old(mapMode) && boardMode == old(boardMode)
    {
      car.Reset();
      playing := false;
      index := 0;
    }

    /** The board-mode button: leaving map mode first stops playback. */
    method EnterBoardMode()
      requires Valid()
      modifies this, car
      ensures Valid() && car == old(car) && boardMode && !mapMode && autoZoom == old(autoZoom)
      ensures old(mapMode) ==> State() == PlayState(false, 0, old(routeLen)) && car.marker.None?
      ensures !old(mapMode) ==> State() == old(State()) && unchanged(car)
    {
      if mapMode {
        StopForModeChange();
        mapMode := false;
      }
      boardMode := true;
    }

    /**
     * The map-mode button. Without geotagged photos it only raises an alert;
     * otherwise it toggles map mode, stopping playback when leaving it.
     */
    method ToggleMapMode(hasLocations: bool) returns (alerted: bool)
      requires Valid()
      modifies this, car
      ensures Valid() && car == old(car) && autoZoom == old(autoZoom) && boardMode == old(boardMode)
      ensures alerted <==> !hasLocations
      ensures !hasLocations ==> State() == old(State()) && mapMode == old(mapMode) && unchanged(car)
      ensures hasLocations ==> mapMode == !old(mapMode)
      ensures hasLocations && old(mapMode) ==> State() == PlayState(false, 0, old(routeLen)) && car.marker.None?
      ensures hasLocations && !old(mapMode) ==> State() == old(State()) && unchanged(car)
    {
      if !hasLocations {
        return true;
      }
      if mapMode {
        StopForModeChange();
      }
      mapMode := !mapMode;
      alerted := false;
    }

    /** The map's own close button: only map mode changes; playback is not stopped. */
    method CloseMapMode()
      requires Valid()
      modifies this
      ensures Valid()
      ensures !mapMode && State() == old(State()) && autoZoom == old(autoZoom)
      ensures boardMode == old(boardMode) && car == old(car)
    {
      mapMode := false;
    }

    /** The auto-zoom toggle. */
    method ToggleAutoZoom()
      requires Valid()
      modifies this
      ensures Valid()
      ensures autoZoom == !old(autoZoom) && State() == old(State())
      ensures mapMode == old(mapMode) && boardMode == old(boardMode) && car == old(car)
    {
      autoZoom := !autoZoom;
    }

    /** A wheel event on the map: scrolling down (zooming out) turns auto-zoom off. */
    method Wheel(deltaY: real)
      requires Valid()
      modifies this
      ensures Valid()
      ensures autoZoom == (old(autoZoom) && deltaY <= 0.0) && State() == old(State())
      ensures mapMode == old(mapMode) && boardMode == old(boardMode) && car == old(car)
    {
      if deltaY > 0.0 {
        autoZoom := false;
      }
    }
  }

  /** A one-point route stops as soon as it starts, at index 0. */
  method OnePointRoute() returns (p: RoutePlayer)
    ensures p.State() == PlayState(false, 0, 1) && p.autoZoom
  {
    p := new RoutePlayer(1);
    var alerted := p.PressRouteButton();
  }
}
