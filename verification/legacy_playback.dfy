/**
 * The earlier route playback of src/App.tsx. The route button behaves as in
 * src/App.jsx, but there is no end-of-route effect: the only stop is inside
 * the timer callback, and the timer is only started while a next point
 * exists. The timer is cleared whenever the index, the route length or the
 * playing flag change, so when it fires the index it reads is the one it was
 * started with.
 */
module LegacyPlayback {
  import opened AppPlayback
  import opened AnimatedCarMarker

  /** The timer effect and its callback, as written. */
  function LegacyAdvance(s: PlayState): (r: PlayState)
    ensures r.routeLen == s.routeLen && r.playing == s.playing
    ensures s.playing && s.index + 1 < s.routeLen ==> r.index == s.index + 1
    ensures !(s.playing && s.index + 1 < s.routeLen) ==> r == s
  {
    if s.playing && s.index < s.routeLen - 1 then
      if s.index >= s.routeLen - 1 then s.(playing := false) else s.(index := s.index + 1)
    else s
  }

  /** The route button: as in src/App.jsx, but a started route is not checked for its end. */
  function LegacyPress(s: PlayState): (r: (PlayState, bool))
    ensures s.playing ==> r == (PlayState(false, 0, s.routeLen), false)
    ensures !s.playing && s.routeLen == 0 ==> r == (s, true)
    ensures !s.playing && s.routeLen > 0 ==> r == (PlayState(true, 0, s.routeLen), false)
  {
    if s.playing then (PlayState(false, 0, s.routeLen), false)
    else if s.routeLen == 0 then (s, true)
    else (PlayState(true, 0, s.routeLen), false)
  }

  function LegacyTicks(s: PlayState, k: nat): PlayState
    decreases k
  {
    if k == 0 then s else LegacyTicks(LegacyAdvance(s), k - 1)
  }

  /** The later version is this one followed by the end-of-route effect. */
  lemma FinishEffectIsTheDifference(s: PlayState)
    ensures Advance(s) == Settle(LegacyAdvance(s))
    ensures Press(s).1 == LegacyPress(s).1 && Press(s).0 == Settle(LegacyPress(s).0)
  {
  }

  /** Both versions visit the same points: they differ only in the playing flag. */
  lemma {:induction false} SameIndices(s: PlayState, k: nat)
    requires Settled(s)
    ensures Ticks(s, k).index == LegacyTicks(s, k).index
    ensures Ticks(s, k).playing ==> LegacyTicks(s, k).playing
    decreases k
  {
    if k > 0 {
      if Advance(s).playing {
        assert Advance(s) == LegacyAdvance(s);
        SameIndices(Advance(s), k - 1);
      } else {
        StoppedStays(Advance(s), k - 1);
        LegacyStaysAt(LegacyAdvance(s), k - 1);
      }
    }
  }

  /** From a state with no next point to move to, ticks change nothing. */
  lemma {:induction false} LegacyStaysAt(s: PlayState, k: nat)
    requires !(s.playing && s.index + 1 < s.routeLen)
    ensures LegacyTicks(s, k) == s
    decreases k
  {
    if k > 0 {
      LegacyStaysAt(LegacyAdvance(s), k - 1);
    }
  }

  /** A tick never stops playback. */
  lemma {:induction false} LegacyNeverStops(s: PlayState, k: nat)
    requires s.playing
    ensures LegacyTicks(s, k).playing
    decreases k
  {
    if k > 0 {
      LegacyNeverStops(LegacyAdvance(s), k - 1);
    }
  }

  /**
   * Played through, a route of `n` points ends on its last point still
   * marked as playing, however many further ticks pass.
   */
  lemma LegacyStaysPlaying(n: nat, i: nat, extra: nat)
    requires n > 0
    ensures LegacyTicks(LegacyPress(PlayState(false, i, n)).0, n - 1 + extra) == PlayState(true, n - 1, n)
  {
    var started := LegacyPress(PlayState(false, i, n)).0;
    LegacyReaches(started, n - 1, extra);
  }

  lemma {:induction false} LegacyReaches(s: PlayState, k: nat, extra: nat)
    requires s.playing && s.index + k + 1 == s.routeLen
    ensures LegacyTicks(s, k + extra) == s.(index := s.index + k)
    decreases k
  {
    if k > 0 {
      LegacyReaches(LegacyAdvance(s), k - 1, extra);
    } else {
      LegacyStaysAt(s, extra);
    }
  }

  class LegacyRoutePlayer {
    var playing: bool
    var index: nat
    var routeLen: nat
    var car: CarMarker

    function State(): PlayState
      reads this
    {
      PlayState(playing, index, routeLen)
    }

    constructor (n: nat)
      ensures State() == PlayState(false, 0, n) && fresh(car) && car.Valid()
    {
      playing, index, routeLen := false, 0, n;
      car := new CarMarker();
    }

    /** `handleRouteAnimation` with the marker reset written out inline. */
    method PressRouteButton() returns (alerted: bool)
      modifies this, car
      ensures car == old(car) && (State(), alerted) == LegacyPress(old(State()))
      ensures !alerted ==> car.Valid() && car.marker.None? && car.prevPos.None? && car.anim.None?
      ensures alerted ==> unchanged(car)
    {
      if playing {
        playing := false;
        index := 0;
        car.Reset();
        alerted := false;
      } else if routeLen == 0 {
        alerted := true;
      } else {
        car.Reset();
        playing := true;
        index := 0;
        alerted := false;
      }
    }

    /**
     * The one-second timer fires. The callback's own stop, for an index
     * already on the last point, cannot be reached: the timer only runs
     * while a next point exists.
     */
    method Tick()
      modifies this
      ensures State() == LegacyAdvance(old(State())) && car == old(car)
    {
      if playing && index < routeLen - 1 {
        var prev := index;
        if prev >= routeLen - 1 {
          assert false;
        } else {
          index := prev + 1;
        }
      }
    }

    /** The sorted route was recomputed with `n` points. */
    method RouteRebuilt(n: nat)
      modifies this
      ensures State() == old(State()).(routeLen := n) && car == old(car)
    {
      routeLen := n;
    }
  }
}
