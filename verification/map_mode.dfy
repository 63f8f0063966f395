/**
 * What the map view of src/components/MapMode.jsx shows for a route and the
 * playback state: the full route line, the travelled part, the car, the
 * camera that follows it and the progress bar.
 */
module MapMode {
  import opened Wrappers
  import opened Exif
  import opened AppPlayback

  /** The point after the current one, if any. */
  function NextPosition(path: seq<Coords>, index: nat): (r: Option<Coords>)
    ensures r.Some? <==> index + 1 < |path|
    ensures r.Some? ==> r.value == path[index + 1]
  {
    if index < |path| - 1 then Some(path[index + 1]) else None
  }

  /** The current route point; none when the index is past the end. */
  function CurrentPosition(path: seq<Coords>, index: nat): (r: Option<Coords>)
    ensures r.Some? <==> index < |path|
    ensures r.Some? ==> r.value == path[index]
  {
    if index < |path| then Some(path[index]) else None
  }

  /** `slice(0, index + 1)`, which stops at the end of the path. */
  function Travelled(path: seq<Coords>, index: nat): (r: seq<Coords>)
    ensures |r| == if index + 1 <= |path| then index + 1 else |path|
    ensures forall i :: 0 <= i < |r| ==> r[i] == path[i]
  {
    if index + 1 <= |path| then path[..index + 1] else path
  }

  /** The camera component in charge of the map. */
  datatype Camera = NoCamera | FollowCar(enabled: bool) | Recentre(center: Coords)

  datatype MapView = MapView(
    fullRoute: Option<seq<Coords>>,
    travelled: Option<seq<Coords>>,
    car: Option<Coords>,
    camera: Camera,
    next: Option<Coords>,
    progress: Option<(nat, nat)>)

  /** The map view for a route path and the playback state. */
  function Render(path: seq<Coords>, s: PlayState, autoZoom: bool): (v: MapView)
    requires s.routeLen == |path|
    ensures v.fullRoute.Some? <==> |path| > 1
    ensures v.fullRoute.Some? ==> v.fullRoute.value == path
    ensures v.travelled.Some? <==> s.playing && s.index > 0
    ensures v.car == CurrentPosition(path, s.index)
    ensures v.car.None? ==> v.camera == NoCamera
    ensures v.car.Some? && s.playing ==> v.camera == FollowCar(autoZoom) && v.next == NextPosition(path, s.index)
    ensures v.car.Some? && !s.playing ==> v.camera == Recentre(v.car.value)
    ensures v.progress.Some? <==> s.playing && |path| > 0
    ensures v.progress.Some? ==> v.progress.value == (s.index + 1, |path|)
  {
    var car := CurrentPosition(path, s.index);
    MapView(
      if |path| > 1 then Some(path) else None,
      if s.playing && s.index > 0 then Some(Travelled(path, s.index)) else None,
      car,
      if car.None? then NoCamera else if s.playing then FollowCar(autoZoom) else Recentre(car.value),
      NextPosition(path, s.index),
      if s.playing && |path| > 0 then Some((s.index + 1, |path|)) else None)
  }

  /**
   * During playback of a non-empty route the car is on the route, the
   * follow camera has a next point to aim at, the travelled line ends at
   * the car, and the progress bar never reaches the full count: reaching
   * the last point stops playback and hides it.
   */
  lemma PlayingView(path: seq<Coords>, s: PlayState, autoZoom: bool)
    requires s.routeLen == |path| && |path| > 0 && s.playing && Settled(s)
    ensures var v := Render(path, s, autoZoom);
      v.car == Some(path[s.index]) && v.camera == FollowCar(autoZoom) &&
      v.next == Some(path[s.index + 1]) &&
      (v.travelled.Some? ==> |v.travelled.value| == s.index + 1 &&
                             v.travelled.value[s.index] == v.car.value) &&
      v.progress.value.0 < v.progress.value.1
  {
  }

  /** When playback has stopped on the last point, the car stays there and the map only recentres. */
  lemma StoppedAtEndView(path: seq<Coords>, autoZoom: bool)
    requires |path| > 0
    ensures var v := Render(path, PlayThroughEnd(|path|), autoZoom);
      v.car == Some(path[|path| - 1]) && v.camera == Recentre(path[|path| - 1]) &&
      v.travelled.None? && v.progress.None?
  {
  }

  /** The state a route of `n` points ends in when played through. */
  function PlayThroughEnd(n: nat): (s: PlayState)
    requires n > 0
    ensures s == Ticks(Press(PlayState(false, 0, n)).0, n - 1)
  {
    PlayThrough(n, 0);
    PlayState(false, n - 1, n)
  }
}
