/**
 * The derived map data of src/App.jsx: the geotagged photos
 * (`getAllGPSLocations`), the initial map view (`calculateMapBounds`) and the
 * time-ordered route (`getSortedRouteLocations`). A photo's position is the
 * `gpsCoords` of `formatMetadata`, which `MetadataUtils.FormatMetadata`
 * proves equal to `MetadataUtils.Position`.
 */
module AppRoute {
  import opened Wrappers
  import opened Exif
  import opened StableSort
  import opened Filtering
  import MetadataUtils
  import ImageUtils

  /** A photo with metadata for which `formatMetadata` reports a position. */
  predicate Geotagged(p: Photo)
  {
    !IsEmpty(p.metadata) && MetadataUtils.Position(p.metadata).Some?
  }

  datatype Location = Location(photo: Photo, coords: Coords)

  /** The location pushed for a geotagged photo. */
  function LocationOf(p: Photo): Location
    requires Geotagged(p)
  {
    Location(p, MetadataUtils.Position(p.metadata).value)
  }

  /** `getAllGPSLocations`: one location pushed per geotagged photo, in collection order. */
  function GpsLocations(images: seq<Photo>): (r: seq<Location>)
    ensures |r| <= |images|
    ensures forall i :: 0 <= i < |r| ==> Geotagged(r[i].photo) && r[i] == LocationOf(r[i].photo)
    ensures (forall i :: 0 <= i < |images| ==> !Geotagged(images[i])) ==> r == []
  {
    PushedSpec(images, Geotagged, LocationOf);
    Pushed(images, Geotagged, LocationOf)
  }

  /**
   * The locations are exactly the geotagged photos, every one of them, in
   * collection order: the k-th location is that of the k-th geotagged photo.
   */
  lemma GpsLocationsSpec(images: seq<Photo>)
    ensures var r := GpsLocations(images); var idx := Indices(images, Geotagged);
      |r| == |idx| && forall k :: 0 <= k < |r| ==> r[k] == LocationOf(images[idx[k]])
  {
    PushedSpec(images, Geotagged, LocationOf);
  }

  // ---------------------------------------------------------------------------
  // Initial map view
  // ---------------------------------------------------------------------------

  function Min(xs: seq<real>): (r: real)
    requires |xs| > 0
    ensures r in xs && forall i :: 0 <= i < |xs| ==> r <= xs[i]
  {
    if |xs| == 1 then xs[0]
    else
      var m := Min(xs[1..]);
      if xs[0] <= m then xs[0] else m
  }

  function Max(xs: seq<real>): (r: real)
    requires |xs| > 0
    ensures r in xs && forall i :: 0 <= i < |xs| ==> xs[i] <= r
  {
    if |xs| == 1 then xs[0]
    else
      var m := Max(xs[1..]);
      if xs[0] >= m then xs[0] else m
  }

  function Lats(locs: seq<Location>): (r: seq<real>)
    ensures |r| == |locs| && forall i :: 0 <= i < |locs| ==> r[i] == locs[i].coords.lat
  {
    seq(|locs|, i requires 0 <= i < |locs| => locs[i].coords.lat)
  }

  function Lons(locs: seq<Location>): (r: seq<real>)
    ensures |r| == |locs| && forall i :: 0 <= i < |locs| ==> r[i] == locs[i].coords.lon
  {
    seq(|locs|, i requires 0 <= i < |locs| => locs[i].coords.lon)
  }

  /** Zoom for the larger side of the bounding box, in degrees. */
  function ZoomForSpan(d: real): (z: int)
    ensures z == 8 || z == 9 || z == 11 || z == 12 || z == 13
  {
    if d > 1.0 then 8
    else if d > 0.5 then 9
    else if d > 0.1 then 11
    else if d > 0.05 then 12
    else 13
  }

  /** A wider box never gets a closer zoom. */
  lemma ZoomForSpanMonotone(d1: real, d2: real)
    requires d1 <= d2
    ensures ZoomForSpan(d2) <= ZoomForSpan(d1)
  {
  }

  datatype View = View(center: Coords, zoom: int)

  /** `calculateMapBounds`: centre of the bounding box and a zoom for its larger side. */
  function MapBounds(locs: seq<Location>): (r: Option<View>)
    ensures r.None? <==> locs == []
  {
    if locs == [] then None
    else
      var minLat, maxLat := Min(Lats(locs)), Max(Lats(locs));
      var minLon, maxLon := Min(Lons(locs)), Max(Lons(locs));
      var latDiff, lonDiff := maxLat - minLat, maxLon - minLon;
      var maxDiff := if latDiff >= lonDiff then latDiff else lonDiff;
      Some(View(Coords((minLat + maxLat) / 2.0, (minLon + maxLon) / 2.0), ZoomForSpan(maxDiff)))
  }

  /**
   * The centre is the midpoint of the box spanned by the points, which every
   * point lies in, and the zoom is chosen from the larger side of that box.
   */
  lemma MapBoundsSpec(locs: seq<Location>)
    requires locs != []
    ensures var v := MapBounds(locs).value;
      var minLat, maxLat := Min(Lats(locs)), Max(Lats(locs));
      var minLon, maxLon := Min(Lons(locs)), Max(Lons(locs));
      (forall i :: 0 <= i < |locs| ==>
         minLat <= locs[i].coords.lat <= maxLat && minLon <= locs[i].coords.lon <= maxLon) &&
      minLat <= v.center.lat <= maxLat && minLon <= v.center.lon <= maxLon &&
      v.center.lat - minLat == maxLat - v.center.lat &&
      v.center.lon - minLon == maxLon - v.center.lon &&
      v.zoom == ZoomForSpan(if maxLat - minLat >= maxLon - minLon then maxLat - minLat else maxLon - minLon)
  {
    var lats, lons := Lats(locs), Lons(locs);
    var minLat, maxLat := Min(lats), Max(lats);
    var minLon, maxLon := Min(lons), Max(lons);
    forall i | 0 <= i < |locs|
      ensures minLat <= locs[i].coords.lat <= maxLat && minLon <= locs[i].coords.lon <= maxLon
    {
      assert lats[i] == locs[i].coords.lat && lons[i] == locs[i].coords.lon;
    }
    assert minLat <= lats[0] <= maxLat && minLon <= lons[0] <= maxLon;
    var latDiff, lonDiff := maxLat - minLat, maxLon - minLon;
    assert MapBounds(locs).value ==
      View(Coords((minLat + maxLat) / 2.0, (minLon + maxLon) / 2.0), ZoomForSpan(if latDiff >= lonDiff then latDiff else lonDiff));
  }

  /** A single photo: the view is centred on it at zoom 13. */
  lemma SinglePointView(loc: Location)
    ensures MapBounds([loc]) == Some(View(loc.coords, 13))
  {
    assert Lats([loc]) == [loc.coords.lat];
    assert Lons([loc]) == [loc.coords.lon];
  }

  /** Points 0.6 degrees apart in latitude get zoom 9. */
  lemma SpanExample(p: Photo)
    ensures MapBounds([Location(p, Coords(37.0, 127.0)), Location(p, Coords(37.6, 127.0))]).value.zoom == 9
  {
    var locs := [Location(p, Coords(37.0, 127.0)), Location(p, Coords(37.6, 127.0))];
    assert Lats(locs) == [37.0, 37.6];
    assert Lons(locs) == [127.0, 127.0];
    assert Lats(locs)[1..] == [37.6];
    assert Lons(locs)[1..] == [127.0];
  }

  // ---------------------------------------------------------------------------
  // Route
  // ---------------------------------------------------------------------------

  datatype Waypoint = Waypoint(photo: Photo, coords: Coords, timestamp: int)

  /** The route timestamp: the parsed date string, else the modification time. */
  function Timestamp(p: Photo, parseDate: string -> int): (t: int)
    ensures !IsEmpty(p.metadata) ==> t == ImageUtils.TimeKey(p, parseDate)
  {
    match ImageUtils.DateString(p.metadata)
    case Some(d) => parseDate(d)
    case None => p.lastModified
  }

  function WaypointOf(p: Photo, parseDate: string -> int): Waypoint
    requires Geotagged(p)
  {
    Waypoint(p, MetadataUtils.Position(p.metadata).value, Timestamp(p, parseDate))
  }

  /** The record `getSortedRouteLocations` pushes for a geotagged photo. */
  function Stop(parseDate: string -> int): Photo --> Waypoint
  {
    p requires Geotagged(p) => WaypointOf(p, parseDate)
  }

  function PhotoOf(w: Waypoint): Photo
  {
    w.photo
  }

  /** The `forEach` of `getSortedRouteLocations`: a waypoint per geotagged photo, in order. */
  function Collect(images: seq<Photo>, parseDate: string -> int): (r: seq<Waypoint>)
    ensures |r| <= |images|
    ensures forall i :: 0 <= i < |r| ==> Geotagged(r[i].photo) && r[i] == WaypointOf(r[i].photo, parseDate)
  {
    PushedSpec(images, Geotagged, Stop(parseDate));
    Pushed(images, Geotagged, Stop(parseDate))
  }

  function ByTimestamp(): Waypoint -> int
  {
    (w: Waypoint) => w.timestamp
  }

  /** `getSortedRouteLocations`: the waypoints of the time-sorted photos, sorted again by timestamp. */
  function SortedRoute(images: seq<Photo>, parseDate: string -> int): (r: seq<Waypoint>)
    ensures SortedBy(r, ByTimestamp())
    ensures |r| <= |images|
  {
    var ws := Collect(ImageUtils.SortImagesByTime(images, parseDate), parseDate);
    SortSorted(ws, ByTimestamp());
    Sort(ws, ByTimestamp())
  }

  /** How often `w` occurs among the waypoints of `images`: as often as its photo does, if geotagged. */
  lemma CollectCount(images: seq<Photo>, parseDate: string -> int, w: Waypoint)
    ensures multiset(Collect(images, parseDate))[w] ==
      if Geotagged(w.photo) && w == WaypointOf(w.photo, parseDate) then multiset(images)[w.photo] else 0
  {
    PushedCount(images, Geotagged, Stop(parseDate), PhotoOf, w);
  }

  /** Rearranging the photos rearranges their waypoints in the same way. */
  lemma CollectPermutes(a: seq<Photo>, b: seq<Photo>, parseDate: string -> int)
    requires multiset(a) == multiset(b)
    ensures multiset(Collect(a, parseDate)) == multiset(Collect(b, parseDate))
  {
    forall w
      ensures multiset(Collect(a, parseDate))[w] == multiset(Collect(b, parseDate))[w]
    {
      CollectCount(a, parseDate, w);
      CollectCount(b, parseDate, w);
    }
  }

  /** The waypoints of photos ordered by time key are ordered by timestamp. */
  lemma CollectSorted(images: seq<Photo>, parseDate: string -> int)
    requires SortedBy(images, ImageUtils.ByTime(parseDate))
    ensures SortedBy(Collect(images, parseDate), ByTimestamp())
  {
    PushedSorted(images, Geotagged, Stop(parseDate), ImageUtils.ByTime(parseDate), ByTimestamp());
  }

  /**
   * The route is ordered by timestamp and holds exactly one waypoint per
   * geotagged photo; the second sort leaves the first sort's order as it is.
   */
  lemma SortedRouteSpec(images: seq<Photo>, parseDate: string -> int)
    ensures SortedBy(SortedRoute(images, parseDate), ByTimestamp())
    ensures multiset(SortedRoute(images, parseDate)) == multiset(Collect(images, parseDate))
    ensures SortedRoute(images, parseDate) == Collect(ImageUtils.SortImagesByTime(images, parseDate), parseDate)
  {
    var sorted := ImageUtils.SortImagesByTime(images, parseDate);
    ImageUtils.SortImagesSpec(images, parseDate);
    CollectSorted(sorted, parseDate);
    SortOfSorted(Collect(sorted, parseDate), ByTimestamp());
    CollectPermutes(sorted, images, parseDate);
  }

  /** A photo without GPS tags is on no route. */
  lemma UntaggedPhotoExcluded(images: seq<Photo>, parseDate: string -> int, p: Photo)
    requires p.metadata.gpsLatitude.None? || p.metadata.gpsLongitude.None?
    ensures forall w :: w in SortedRoute(images, parseDate) ==> w.photo != p
  {
    MetadataUtils.PositionNeedsBothTags(p.metadata);
    SortedRouteSpec(images, parseDate);
  }
}
