/**
 * The moving car marker of route playback (src/components/AnimatedCarMarker.jsx).
 * The source keeps it in three module-level references: the marker, the
 * position it last came to rest at, and the pending animation frame. Time and
 * the great-circle distance between two positions are parameters.
 */
module AnimatedCarMarker {
  import opened Wrappers
  import opened Exif

  /** Animation length in milliseconds for a move of `distance` kilometres. */
  function Duration(distance: real): (ms: real)
    requires distance >= 0.0
    ensures 200.0 <= ms <= 600.0
    ensures distance >= 10.0 ==> ms == 600.0
    ensures ms == 200.0 <==> distance == 0.0
  {
    var normalized := if distance / 10.0 <= 1.0 then distance / 10.0 else 1.0;
    200.0 + (600.0 - 200.0) * normalized
  }

  /** A longer move never animates faster. */
  lemma DurationMonotone(d1: real, d2: real)
    requires 0.0 <= d1 <= d2
    ensures Duration(d1) <= Duration(d2)
  {
  }

  /** Fraction of the animation done after `elapsed` milliseconds, capped at 1. */
  function Progress(elapsed: real, duration: real): (p: real)
    requires duration > 0.0
    ensures p <= 1.0
    ensures elapsed >= 0.0 ==> p >= 0.0
    ensures p == 1.0 <==> elapsed >= duration
  {
    if elapsed / duration <= 1.0 then elapsed / duration else 1.0
  }

  /** `x` squared (`Math.pow(x, 2)`). */
  function Square(x: real): real
  {
    x * x
  }

  /** Quadratic ease-in-out. */
  function Ease(p: real): (e: real)
    ensures p == 0.0 ==> e == 0.0
    ensures p == 1.0 ==> e == 1.0
    ensures 0.0 <= p <= 1.0 ==> 0.0 <= e <= 1.0
  {
    if p < 0.5 then
      SquareMonotone(p, 0.5);
      2.0 * Square(p)
    else
      var q := -2.0 * p + 2.0;
      SquareAtMostOne(q);
      1.0 - Square(q) / 2.0
  }

  lemma SquareAtMostOne(q: real)
    ensures 0.0 <= q <= 1.0 ==> 0.0 <= Square(q) <= q
  {
    if 0.0 <= q <= 1.0 {
      ScaleBelow(q, q);
    }
  }

  /** The eased value never moves backwards as time passes. */
  lemma EaseMonotone(p1: real, p2: real)
    requires 0.0 <= p1 <= p2 <= 1.0
    ensures Ease(p1) <= Ease(p2)
  {
    if p2 < 0.5 {
      SquareMonotone(p1, p2);
      assert Ease(p1) == 2.0 * Square(p1) && Ease(p2) == 2.0 * Square(p2);
    } else if p1 >= 0.5 {
      var q1, q2 := -2.0 * p1 + 2.0, -2.0 * p2 + 2.0;
      SquareMonotone(q2, q1);
      assert Ease(p1) == 1.0 - Square(q1) / 2.0 && Ease(p2) == 1.0 - Square(q2) / 2.0;
    } else {
      SquareMonotone(p1, 0.5);
      var q2 := -2.0 * p2 + 2.0;
      SquareAtMostOne(q2);
      assert Ease(p1) == 2.0 * Square(p1) && Ease(p2) == 1.0 - Square(q2) / 2.0;
    }
  }

  lemma SquareMonotone(a: real, b: real)
    ensures 0.0 <= a <= b ==> Square(a) <= Square(b)
  {
    if 0.0 <= a <= b {
      ScaleBelow(a, 1.0);
      NonNegProduct(a, b - a);
      NonNegProduct(b, b - a);
      assert a * (b - a) == a * b - a * a;
      assert b * (b - a) == b * b - a * b;
    }
  }

  /** Linear interpolation between `a` and `b`. */
  function Lerp(a: real, b: real, t: real): (x: real)
    ensures t == 0.0 ==> x == a
    ensures t == 1.0 ==> x == b
  {
    a + (b - a) * t
  }

  /** For a fraction in [0, 1] the interpolated value lies between the two ends. */
  lemma LerpBetween(a: real, b: real, t: real)
    requires 0.0 <= t <= 1.0
    ensures a <= b ==> a <= Lerp(a, b, t) <= b
    ensures b <= a ==> b <= Lerp(a, b, t) <= a
  {
    var c := b - a;
    var p := c * t;
    assert Lerp(a, b, t) == a + p;
    ScaleBelow(c, t);
    ScaleBelow(-c, t);
    assert (-c) * t == -p;
  }

  lemma NonNegProduct(a: real, b: real)
    ensures a >= 0.0 && b >= 0.0 ==> a * b >= 0.0
  {
  }

  lemma ScaleBelow(c: real, t: real)
    ensures c >= 0.0 && 0.0 <= t <= 1.0 ==> 0.0 <= c * t <= c
  {
    NonNegProduct(c, t);
    NonNegProduct(c, 1.0 - t);
    assert c * (1.0 - t) == c - c * t;
  }

  /** The marker position at eased fraction `t` of the move from `s` to `e`. */
  function Interpolate(s: Coords, e: Coords, t: real): (c: Coords)
    ensures t == 0.0 ==> c == s
    ensures t == 1.0 ==> c == e
  {
    Coords(Lerp(s.lat, e.lat, t), Lerp(s.lon, e.lon, t))
  }

  /** A move in flight: from where the marker last rested to the new position. */
  datatype Animation = Animation(start: Coords, target: Coords, duration: real, startTime: real)

  class CarMarker {
    /** The marker on the map, by the position it is drawn at; None when there is none. */
    var marker: Option<Coords>
    /** Where the marker last came to rest. */
    var prevPos: Option<Coords>
    /** The animation in flight, if any. */
    var anim: Option<Animation>

    ghost predicate Valid()
      reads this
    {
      (marker.Some? <==> prevPos.Some?) &&
      (anim.Some? ==> marker.Some? && anim.value.start == prevPos.value &&
                      200.0 <= anim.value.duration <= 600.0)
    }

    constructor ()
      ensures Valid() && marker.None? && prevPos.None? && anim.None?
    {
      marker, prevPos, anim := None, None, None;
    }

    /**
     * The marker effect for a new route position. The first position creates
     * the marker there; a different position starts a move from the resting
     * position, replacing any move in flight; the same position does nothing.
     * The source's branch for a marker without a resting position is left
     * out: `Valid` rules it out.
     */
    method Show(position: Coords, distance: real, now: real)
      requires Valid() && distance >= 0.0
      modifies this
      ensures Valid()
      ensures old(marker).None? ==>
        marker == Some(position) && prevPos == Some(position) && anim == old(anim)
      ensures old(marker).Some? && old(prevPos) != Some(position) ==>
        marker == old(marker) && prevPos == old(prevPos) &&
        anim == Some(Animation(old(prevPos).value, position, Duration(distance), now))
      ensures old(prevPos) == Some(position) ==>
        marker == old(marker) && prevPos == old(prevPos) && anim == old(anim)
    {
      if marker.None? {
        marker := Some(position);
        prevPos := Some(position);
      } else if prevPos.Some? && prevPos.value != position {
        anim := Some(Animation(prevPos.value, position, Duration(distance), now));
      }
    }

    /**
     * One animation frame at time `now`: the marker is drawn at the eased
     * point of the move, and once the move is complete it comes to rest at
     * the target and the animation ends.
     */
    method Frame(now: real)
      requires Valid()
      modifies this
      ensures Valid()
      ensures old(anim).None? ==> marker == old(marker) && prevPos == old(prevPos) && anim == old(anim)
      ensures old(anim).Some? ==>
        var a := old(anim).value;
        var p := Progress(now - a.startTime, a.duration);
        marker == Some(Interpolate(a.start, a.target, Ease(p))) &&
        (p < 1.0 ==> prevPos == old(prevPos) && anim == old(anim)) &&
        (p == 1.0 ==> marker == Some(a.target) && prevPos == Some(a.target) && anim.None?)
    {
      if anim.Some? {
        var a := anim.value;
        var p := Progress(now - a.startTime, a.duration);
        var eased := Ease(p);
        var pos := Interpolate(a.start, a.target, eased);
        if marker.Some? {
          marker := Some(pos);
        }
        if p >= 1.0 {
          assert p == 1.0 && eased == 1.0 && pos == a.target;
          prevPos := Some(a.target);
          anim := None;
        }
      }
    }

    /** `resetCarMarker`: remove the marker and forget its position and animation. */
    method Reset()
      modifies this
      ensures Valid() && marker.None? && prevPos.None? && anim.None?
    {
      marker := None;
      prevPos := None;
      anim := None;
    }
  }

  /** A move started, then a frame at or past its duration, leaves the marker at the target. */
  method MoveArrives(m: CarMarker, from: Coords, to: Coords, distance: real, now: real)
    requires distance >= 0.0 && from != to
    modifies m
    ensures m.Valid() && m.marker == Some(to) && m.prevPos == Some(to) && m.anim.None?
  {
    m.Reset();
    m.Show(from, distance, now);
    m.Show(to, distance, now);
    m.Frame(now + Duration(distance));
  }
}
