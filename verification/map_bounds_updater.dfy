/**
 * The follow camera of route playback (src/components/MapBoundsUpdater.jsx):
 * each time the car's position changes it recentres the map on the car and
 * picks a zoom from the distance to the next point. The great-circle
 * distance is a parameter.
 */
module MapBoundsUpdater {
  import opened Wrappers
  import opened Exif

  /** Zoom level for the distance, in kilometres, to the next point. */
  function ZoomForDistance(km: real): (z: int)
    ensures 14 <= z <= 18
    ensures km < 0.1 <==> z == 18
    ensures km >= 5.0 <==> z == 14
  {
    if km < 0.1 then 18
    else if km < 0.5 then 17
    else if km < 1.0 then 16
    else if km < 5.0 then 15
    else 14
  }

  /** A farther next point never gets a closer zoom. */
  lemma ZoomForDistanceMonotone(d1: real, d2: real)
    requires d1 <= d2
    ensures ZoomForDistance(d2) <= ZoomForDistance(d1)
  {
  }

  /** What the effect does to the map. */
  datatype ViewChange = Keep | SetView(center: Coords, zoom: int)

  /**
   * The effect: nothing when disabled or when there is no current position;
   * otherwise centre on the current position, keeping the map's zoom when
   * there is no next point.
   */
  function Follow(current: Option<Coords>, next: Option<Coords>, enabled: bool,
                  mapZoom: int, distance: (Coords, Coords) -> real): (v: ViewChange)
    ensures v.Keep? <==> !enabled || current.None?
    ensures v.SetView? ==> v.center == current.value
    ensures v.SetView? && next.None? ==> v.zoom == mapZoom
    ensures v.SetView? && next.Some? ==> v.zoom == ZoomForDistance(distance(current.value, next.value))
  {
    if !enabled then Keep
    else if current.None? then Keep
    else if next.None? then SetView(current.value, mapZoom)
    else
      var d := distance(current.value, next.value);
      var targetZoom := ZoomForDistance(d);
      SetView(current.value, targetZoom)
  }

  /** Whenever it moves the map, a next point sets a zoom between 14 and 18. */
  lemma FollowZoomInRange(current: Coords, next: Coords, mapZoom: int, distance: (Coords, Coords) -> real)
    ensures var v := Follow(Some(current), Some(next), true, mapZoom, distance);
      v == SetView(current, v.zoom) && 14 <= v.zoom <= 18
  {
  }
}
