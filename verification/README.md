# photometa in Dafny

A model of the logic inside the photometa photo viewer, a client-side React application. The viewer reads the EXIF tags of uploaded photos and shows them three ways: as a gallery, on a map with time-ordered route playback, and on a draggable photo board. The model covers the parts of the viewer that decide something rather than draw something:

- **Position and display record.**
  - `parseGPS` resolves a position from the GPS tags: a degrees/minutes/seconds array, a scalar, the first numeric token of a description, and finally both descriptions joined (`GpsUtils`).
  - `formatMetadata` builds the camera, exposure, date and position fields, including its two extra, range-checked position fallbacks (`MetadataUtils`). When the tag values are rational pairs, as ExifReader delivers them, `parseGPS` finds nothing and the first fallback supplies the position from the descriptions.
  - `Text` holds the string primitives both rely on: `toLowerCase`, `includes`, `trim`, `parseFloat` and the `(\d+\.\d+|\d+)` token pattern. `Exif` holds the tag record.
- **Ordering.**
  - `sortImagesByTime` is a stable sort on a derived time key (`ImageUtils`, over the insertion sort of `StableSort`).
  - The geotagged photos, the initial map view and the time-ordered route are built from it (`AppRoute`).
- **Route playback.**
  - The play/stop button, the one-second tick and the end-of-route effect of `App.jsx` (`AppPlayback`).
  - The earlier tick rule of `App.tsx` (`LegacyPlayback`).
  - What the map shows (`MapMode`), the follow camera (`MapBoundsUpdater`) and the car marker with its global refs (`AnimatedCarMarker`).
- **Gallery selection.** Wrap-around navigation, the lightbox, the arrow keys of `App.tsx`, and removal of the selected photo (`AppGallery`).
- **Grouping and caching.**
  - Marker stacking by proximity to a group's first member (`ThumbnailMarkers`).
  - Day grouping of the timeline, and the loader that requests each address at most once (`MapTimeline`). Both use the partition lemmas of `Grouping`.
  - Address composition and the reverse-geocoding cache (`GeocodingUtils`).
- **Photo board.** The topmost-first hit test, wheel/pinch/button zoom about a fixed point, saved-layout reuse, fresh layouts, photo drag and inertia (`BoardMode`).

Where the source changes state step by step, the model is a class whose methods state their new state through specification functions. Examples: `RoutePlayer`, `LegacyRoutePlayer`, `CarMarker`, `Gallery`, `Geocoder`, `AddressLoader` and `Board`. Loops (`calculateStackIndices`, `groupedByDate`, `loadAddresses`, `getPhotoAtPosition`, the inertia loop) are methods with invariants that are proved against those functions. Pure computations are functions, and lemmas state their properties.

`src/App.tsx` holds an earlier copy of `parseGPS`, `formatMetadata`, `sortImagesByTime`, `calculateMapBounds` and `getSortedRouteLocations`. Apart from type annotations and comments, these are identical to the versions in `src/utils/` and `src/App.jsx`, so each is modelled once. Its tick rule differs and is modelled separately in `LegacyPlayback`.

JavaScript numbers are exact reals plus NaN (`Exif.Num`). Timestamps are integers.

## Model

| member | source | states |
|---|---|---|
| Exif.Num.Negate | src/utils/gpsUtils.js:15 | unary minus keeps NaN as NaN and negates a finite value |
| Exif.RefTag.First | src/utils/gpsUtils.js:10 | `Ref?.value?.[0]` is present exactly when the value array is non-empty, and then is its first element |
| Exif.OrEmpty | src/utils/gpsUtils.js:83-88 | a missing or empty description reads as "" and a present one as itself |
| Exif.DescriptionOf | src/utils/metadataUtils.js:13-15 | `tag?.description` is absent for an absent tag, else the tag's description |
| Text.Lower | src/utils/gpsUtils.js:58 | `toLowerCase` keeps the length and lower-cases exactly the letters A-Z, leaving every other character as it is |
| Text.Trim | src/utils/metadataUtils.js:9 | `trim` never lengthens, leaves no white space at either end, and is non-empty whenever the input has a character that is not white space |
| Text.TrimSpec | src/utils/metadataUtils.js:9 | the input is white space, then the trimmed string, then white space |
| Text.TokenAtMatches | src/utils/gpsUtils.js:55 | a match starting at a digit covers exactly its text: the digit run, plus `.digits` exactly when a point followed by a digit comes next |
| Text.FirstTokenSpec | src/utils/gpsUtils.js:55 | `match(/(\d+\.\d+\|\d+)/)` fails exactly when there is no digit, and otherwise is the match at the first digit |
| Text.Tokens | src/utils/gpsUtils.js:91 | the global match list is empty exactly when the single match fails, and its first element is that match |
| Text.ParseFloat | src/utils/gpsUtils.js:26 | `parseFloat` gives NaN exactly when no numeric prefix follows the leading white space and sign |
| Text.ParseFloatToken | src/utils/gpsUtils.js:57 | `parseFloat` of a matched token, with no sign, "+" or "-" before it, is the token's decimal value, negated exactly for "-" |
| GpsUtils.ArrayRef | src/utils/gpsUtils.js:10 | the array-branch reference is never empty: the Ref's first value, else "N" / "E" |
| GpsUtils.ScalarRef | src/utils/gpsUtils.js:25 | the scalar-branch reference is never empty: the first value, else the description, else "N" / "E" |
| GpsUtils.StructuredStage | src/utils/gpsUtils.js:7-48 | an axis whose tag is missing gets nothing from the value stage; a value that is not a number comes only from an array whose first element is a rational pair, under a reference that does not negate it |
| GpsUtils.CombinedAxis | src/utils/gpsUtils.js:93-108 | the combined fallback never overwrites an axis that is already truthy |
| GpsUtils.Finish | src/utils/gpsUtils.js:112-118 | a position is returned exactly when both axes are set and not NaN, and it is exactly (lat, lon) |
| GpsUtils.DmsValue | src/utils/gpsUtils.js:14 | `d + m/60 + s/3600` is decimal degrees for three numbers, NaN when only the minutes or seconds are pairs, and not a number at all when the degrees are a pair |
| GpsUtils.DescriptionStage | src/utils/gpsUtils.js:50-79 | a truthy axis is kept; an axis that changes becomes a finite number, and only when its tag exists |
| GpsUtils.CombinedStage | src/utils/gpsUtils.js:81-110 | truthy axes are kept; without both tags nothing changes; an axis that changes becomes a finite number |
| GpsUtils.Resolve | src/utils/gpsUtils.js:2-119 | `parseGPS` returns a position only when both GPSLatitude and GPSLongitude exist |
| GpsUtils.ParseGps | src/utils/gpsUtils.js:2-119 | the step-by-step procedure returns exactly the composition of the three stages; a position implies both GPS tags exist |
| GpsUtils.ReadValue | src/utils/gpsUtils.js:7-48 | the array / scalar blocks for one axis compute the value stage |
| GpsUtils.ReadDescription | src/utils/gpsUtils.js:50-79 | the description block for one axis computes the description stage |
| GpsUtils.ReadCombined | src/utils/gpsUtils.js:81-110 | the combined-description block computes the combined stage |
| GpsUtils.ReadToken | src/utils/gpsUtils.js:93-108 | one axis of the combined block: a falsy axis takes the token, signed by the hemisphere test; a truthy axis is kept |
| GpsUtils.DmsArrayStage | src/utils/gpsUtils.js:13-15 | an array of 3 or more numbers gives `d + m/60 + s/3600`, negated exactly when the reference letter is S (W for longitude) |
| GpsUtils.ShortArrayStage | src/utils/gpsUtils.js:16-19 | a one-element array is taken as decimal with the same sign rule; an array of length 0 or 2 resolves nothing |
| GpsUtils.PairArrayStage | src/utils/gpsUtils.js:13-19 | an array whose first element is a rational pair gives NaN under a negating reference, and otherwise a value that is not a number |
| GpsUtils.NeedsBothTags | src/utils/gpsUtils.js:82-114 | without both GPSLatitude and GPSLongitude there is never a position |
| GpsUtils.NonNumericBlocks | src/utils/gpsUtils.js:51-114 | a value that is not a number is truthy, so no fallback replaces it, and `isNaN` then refuses the position |
| GpsUtils.ValueTakesPrecedence | src/utils/gpsUtils.js:51-101 | a truthy axis from the tag value is final: neither fallback replaces it |
| GpsUtils.DescriptionToken | src/utils/gpsUtils.js:51-64 | a falsy axis takes the first numeric token of its own description, negated exactly on "south"/"west" or an s/w reference; no token leaves it as it was |
| GpsUtils.CombinedTokens | src/utils/gpsUtils.js:82-110 | with two or more tokens in the joined descriptions, token 0 fills a falsy latitude and token 1 a falsy longitude, each with its hemisphere sign |
| GpsUtils.AxesIndependent | src/utils/gpsUtils.js:30-79 | the first two stages of an axis depend only on that axis's own tag and reference |
| GpsUtils.DescriptionSettles | src/utils/gpsUtils.js:51-64 | after the description stage, an axis whose description holds a digit is a number, never null or NaN |
| GpsUtils.DescriptionsSuffice | src/utils/gpsUtils.js:51-114 | when both descriptions hold a digit there is always a position |
| GpsUtils.OutOfRangeAccepted | src/utils/gpsUtils.js:112-114 | no range check: a latitude of 100 is returned as it is |
| GpsUtils.NorthEastExample | src/utils/gpsUtils.js:8-48 | 37°30'N 127°E given as plain numbers with "N" / "E" references resolves to (37.5, 127) |
| GpsUtils.ExifReaderNorthEast | src/utils/gpsUtils.js:8-118 | the same position with ExifReader's rational pairs, decimal descriptions and "N" / "E" references gets no position from `parseGPS` |
| GpsUtils.SouthExample | src/utils/gpsUtils.js:13-15 | 10°S resolves to -10 |
| GpsUtils.HemisphereWordNegates | src/utils/gpsUtils.js:51-63 | an axis with no tag value and a description naming "south" / "west" is the negated first token of the description |
| GpsUtils.SettledAfterDescriptions | src/utils/gpsUtils.js:81-118 | when both axes are non-zero numbers after the description stage, the joined-description stage changes nothing and they are the position |
| GpsUtils.DescriptionsOnly | src/utils/gpsUtils.js:51-118 | tags with descriptions only, naming "south" and "west", resolve to the two first tokens negated |
| GpsUtils.DescriptionOnlyExample | src/utils/gpsUtils.js:50-114 | tags with descriptions only resolve to (-12.5, -45) |
| MetadataUtils.CameraLabel | src/utils/metadataUtils.js:8-10 | the camera is present exactly when Make or Model exists, and then has no white space at either end |
| MetadataUtils.CameraLabelContent | src/utils/metadataUtils.js:9 | the camera is `Make + " " + Model` (missing descriptions as "") with white space removed from both ends only |
| MetadataUtils.CameraBoth | src/utils/metadataUtils.js:9 | with both descriptions the camera reads "Make Model" |
| MetadataUtils.CameraModelOnly | src/utils/metadataUtils.js:9 | with only a Model the leading space is trimmed away |
| MetadataUtils.ExifSummary | src/utils/metadataUtils.js:17 | the corrected summary: empty exactly when all three descriptions are empty (its value is pinned down by `JoinNonEmptySpec` and the case lemmas) |
| MetadataUtils.ExifLabel | src/utils/metadataUtils.js:13-18 | the exposure field is present exactly when one of FocalLength / ExposureTime / FNumber is truthy, and is then non-empty; its text is the corrected `ExifSummary` |
| MetadataUtils.JoinNonEmpty | src/utils/metadataUtils.js:17 | the join of the non-empty parts is empty exactly when every part is empty |
| MetadataUtils.JoinNonEmptySpec | src/utils/metadataUtils.js:17 | the corrected summary is the non-empty parts, in order, joined by ", " |
| MetadataUtils.ExifAsWritten | src/utils/metadataUtils.js:17 | the text left by the two regular expressions is never longer than the three descriptions plus their two ", " separators |
| MetadataUtils.ExifAgreement | src/utils/metadataUtils.js:17 | for absent or plain descriptions, the source's text equals the corrected summary exactly when it is not the focal length alone or the f-number alone |
| MetadataUtils.ExifNone | src/utils/metadataUtils.js:17 | with no description the regular expressions leave "" (the field is then not set) |
| MetadataUtils.ExifExposureOnly | src/utils/metadataUtils.js:17 | the exposure time alone loses both separators |
| MetadataUtils.ExifFocalExposure | src/utils/metadataUtils.js:17 | focal length and exposure time give "a, b" |
| MetadataUtils.ExifFocalAperture | src/utils/metadataUtils.js:17 | focal length and f-number give "a, c": the empty middle's ", ," collapses |
| MetadataUtils.ExifExposureAperture | src/utils/metadataUtils.js:17 | exposure time and f-number give "b, c" |
| MetadataUtils.SummaryCases | src/utils/metadataUtils.js:17 | the corrected summary of each combination with an absent part joins the present ones by ", " |
| MetadataUtils.ExifComplete | src/utils/metadataUtils.js:17 | with all three descriptions present, the source's regular expressions and the corrected summary agree on "a, b, c" |
| MetadataUtils.ExifJoinAll | src/utils/metadataUtils.js:17 | three non-empty parts join to "a, b, c" |
| MetadataUtils.ExifLeadingCommaSurvives | src/utils/metadataUtils.js:17 | as written, only an f-number gives ", f/2.8"-style output with a leading comma; the corrected summary gives the bare part |
| MetadataUtils.ExifTrailingCommaSurvives | src/utils/metadataUtils.js:17 | as written, only a focal length gives "50 mm, "-style output with a trailing comma; the corrected summary gives the bare part |
| MetadataUtils.DateLabel | src/utils/metadataUtils.js:21-33 | the date is derived from a truthy DateTimeOriginal description only; DateTime is never consulted |
| MetadataUtils.GpsText | src/utils/metadataUtils.js:74-94 | the label exists exactly when there is a position or both descriptions are truthy; it is decimal exactly when there is a position, with the absolute values and the `value[0] \|\| description \|\| N/E` references; otherwise it is the two descriptions with their raw references, joined by ", " |
| MetadataUtils.LooseFallback | src/utils/metadataUtils.js:39-72 | the first fallback yields a position exactly when both descriptions hold a token and the signed tokens are in range, and then it is exactly those signed tokens |
| MetadataUtils.RawFallback | src/utils/metadataUtils.js:96-119 | the raw-description reparse yields a position exactly when both descriptions hold a token and the signed tokens are in range, and then it is exactly those signed tokens |
| MetadataUtils.TokenPosition | src/utils/metadataUtils.js:47-70 | the shared reparse: a position exactly when both strings hold a token and the signed tokens are within ±90 / ±180, and then exactly those |
| MetadataUtils.Position | src/utils/metadataUtils.js:36-72 | the reported position is `parseGPS`'s whenever it has one, and exists only when both GPS tags do |
| MetadataUtils.SignsDoNotDecide | src/utils/metadataUtils.js:65-68 | whether a reparse yields a position does not depend on the hemisphere signs |
| MetadataUtils.RawAddsNothing | src/utils/metadataUtils.js:93-119 | when the first fallback yields nothing, the raw reparse yields nothing for any references |
| MetadataUtils.NumericValuesNoFallback | src/utils/metadataUtils.js:36-72 | when neither tag value is a rational-pair array, the reported position is exactly `parseGPS`'s |
| MetadataUtils.PairValueFallsBack | src/utils/metadataUtils.js:36-72 | when a tag value is a rational-pair array, the reported position is the first fallback's |
| MetadataUtils.PositionNeedsBothTags | src/utils/metadataUtils.js:39-79 | without both GPS tags there is no position |
| MetadataUtils.FallbackInRange | src/utils/metadataUtils.js:68 | a position that `parseGPS` did not give is within ±90 / ±180 |
| MetadataUtils.ExifReaderTokens | src/utils/metadataUtils.js:47-52 | "37.5" and "127" read as 37.5 and 127 |
| MetadataUtils.NorthEastDescriptions | src/utils/metadataUtils.js:39-72 | descriptions "37.5" and "127" with non-negating references give (37.5, 127) from the first fallback |
| MetadataUtils.ExifReaderPosition | src/utils/metadataUtils.js:36-72 | for ExifReader's rational pairs `parseGPS` gives nothing but `formatMetadata` reports (37.5, 127) |
| MetadataUtils.FormatMetadata | src/utils/metadataUtils.js:4-124 | camera, exposure, date and labels are the specified fields, and `gpsCoords` is `Position`: the `parseGPS` result, else the first fallback's |
| MetadataUtils.FormatPosition | src/utils/metadataUtils.js:35-121 | the position block leaves `gpsCoords` equal to `Position` (the raw reparse never adds one) and the label equal to `GpsText` |
| StableSort.Sort | src/utils/imageUtils.js:58-82 | the stable sort keeps the length |
| StableSort.SortSorted | src/utils/imageUtils.js:58-82 | the output is non-decreasing by key |
| StableSort.SortPermutes | src/utils/imageUtils.js:58-82 | the output is a permutation of the input |
| StableSort.SortStable | src/utils/imageUtils.js:58-82 | for every key, the elements with that key keep their input order |
| StableSort.SortedUnique | src/utils/imageUtils.js:58-82 | two sorted sequences with the same per-key subsequences are equal: a stable sort's output is unique |
| StableSort.SortOfSorted | src/utils/imageUtils.js:58-82 | sorting a sorted sequence returns it unchanged |
| StableSort.SortIdempotent | src/utils/imageUtils.js:58-82 | sorting twice equals sorting once |
| ImageUtils.DateString | src/utils/imageUtils.js:65-67 | DateTimeOriginal's description when truthy, else DateTime's, else none |
| ImageUtils.TimeKey | src/utils/imageUtils.js:59-79 | the key is 0 for empty metadata, else the parsed date string, else the file's modification time |
| ImageUtils.SortImagesByTime | src/utils/imageUtils.js:57-83 | the sorted copy has the input's length |
| ImageUtils.SortImagesSpec | src/utils/imageUtils.js:57-83 | the result is ordered by time key, is a permutation of the input, and keeps equal keys in input order |
| ImageUtils.SortImagesIdempotent | src/utils/imageUtils.js:57-83 | sorting an already sorted list returns the same order |
| ImageUtils.SortImagesCanonical | src/utils/imageUtils.js:57-83 | any stably sorted arrangement of the input is exactly the result |
| ImageUtils.ModificationTimeOrder | src/utils/imageUtils.js:78-81 | undated photos modified at 300, 100, 200 come out as 100, 200, 300 |
| ImageUtils.EmptyMetadataKeepsOrder | src/utils/imageUtils.js:60-62 | photos whose metadata is still empty all have key 0 and keep their order |
| ImageUtils.ThumbnailSize | src/utils/imageUtils.js:15-28 | the thumbnail keeps the aspect ratio, never enlarges, fits in `maxSize`, is unchanged when it already fits, and otherwise has a side equal to `maxSize` |
| AppRoute.GpsLocations | src/App.jsx:222-235 | every location is a geotagged photo with its own position, there are no more locations than photos, and none when no photo is geotagged |
| AppRoute.GpsLocationsSpec | src/App.jsx:222-235 | the k-th location is that of the k-th geotagged photo: every geotagged photo appears, in order, and nothing else |
| Filtering.Indices | src/App.jsx:223-234 | the indices of the accepted photos, in increasing order, and every accepted index is among them |
| Filtering.Pushed | src/App.jsx:223-234 | `forEach` with a conditional `push` never yields more records than elements, and none when nothing is accepted |
| Filtering.PushedSpec | src/App.jsx:223-234 | the k-th record pushed is that of the k-th accepted element |
| Filtering.PushedCount | src/App.jsx:273-294 | a record occurs as often as its element does when that element is accepted and gives it, and never otherwise |
| Filtering.PushedSorted | src/App.jsx:273-294 | elements ordered by key give records ordered by key when each record keeps its element's key |
| AppRoute.ZoomForSpan | src/App.jsx:252-260 | the zoom for the larger span is one of 8, 9, 11, 12, 13 |
| AppRoute.ZoomForSpanMonotone | src/App.jsx:256-260 | a wider box never gets a closer zoom |
| AppRoute.MapBounds | src/App.jsx:238-239 | there is no view exactly when there are no locations |
| AppRoute.MapBoundsSpec | src/App.jsx:241-262 | every point lies in the min/max box, the centre is its midpoint in both axes, and the zoom comes from the larger side |
| AppRoute.SinglePointView | src/App.jsx:238-262 | a single point is the centre at zoom 13 |
| AppRoute.SpanExample | src/App.jsx:257-258 | points 0.6 degrees apart get zoom 9 |
| AppRoute.Timestamp | src/App.jsx:277-289 | a route timestamp equals the photo's sort key whenever its metadata is non-empty |
| AppRoute.Collect | src/App.jsx:273-294 | every waypoint comes from a geotagged photo, with that photo's position and timestamp, and there are no more waypoints than photos |
| AppRoute.CollectCount | src/App.jsx:273-294 | a waypoint occurs as often as its photo does when that photo is geotagged, and never otherwise |
| AppRoute.CollectPermutes | src/App.jsx:273-294 | rearranging the photos rearranges their waypoints the same way |
| AppRoute.CollectSorted | src/App.jsx:270-294 | photos ordered by time key give waypoints ordered by timestamp |
| AppRoute.SortedRoute | src/App.jsx:269-297 | the route is ordered by timestamp and has no more waypoints than photos |
| AppRoute.SortedRouteSpec | src/App.jsx:269-297 | the route is ordered by timestamp, holds exactly the waypoints of the geotagged photos, and the second sort leaves the first sort's order as it is |
| AppRoute.UntaggedPhotoExcluded | src/App.jsx:274-276 | a photo without both GPS tags is on no route |
| AppPlayback.Settle | src/App.jsx:332-337 | the end effect stops playback at or past the last point and keeps the index |
| AppPlayback.Advance | src/App.jsx:322-337 | a tick moves exactly one point on while a next point exists and never passes the last point; stopped playback is unchanged |
| AppPlayback.Press | src/App.jsx:304-319 | while playing: stop at index 0; stopped on an empty route: only the alert; otherwise play from index 0, and a one-point route stops at once |
| AppPlayback.Rebuild | src/App.jsx:299-337 | a new route length keeps the index, and never starts playback |
| AppPlayback.TicksFrom | src/App.jsx:322-337 | k ticks from a playing state move exactly k points, still playing until the last point |
| AppPlayback.Ticks | src/App.jsx:322-337 | ticks keep the route length, never start playback, and keep a settled state settled |
| AppPlayback.PlayThrough | src/App.jsx:304-337 | pressing play on n points and letting n-1 ticks pass ends stopped on the last point |
| AppPlayback.StoppedStays | src/App.jsx:323 | once stopped, ticks change nothing |
| AppPlayback.IndexStaysOnRoute | src/App.jsx:322-337 | during playback the index never leaves the route |
| AppPlayback.RoutePlayer.constructor | src/App.jsx:31-38 | playback starts stopped at index 0 with auto-zoom on and neither map nor board mode |
| AppPlayback.RoutePlayer.PressRouteButton | src/App.jsx:304-319 | the route button follows `Press`, leaves auto-zoom alone, and resets the car marker unless it only alerts |
| AppPlayback.RoutePlayer.FinishEffect | src/App.jsx:332-337 | the end-of-route effect follows `Settle`, so from any play state it leaves a settled one: the player invariant holds again afterwards |
| AppPlayback.RoutePlayer.Tick | src/App.jsx:322-329 | a timer tick follows `Advance` |
| AppPlayback.RoutePlayer.RouteRebuilt | src/App.jsx:299 | a rebuilt route follows `Rebuild` |
| AppPlayback.RoutePlayer.StopForModeChange | src/App.jsx:375-379 | leaving map mode stops, rewinds to 0 and resets the marker |
| AppPlayback.RoutePlayer.EnterBoardMode | src/App.jsx:373-382 | the board button leaves map mode, stopping and rewinding playback when it was on |
| AppPlayback.RoutePlayer.ToggleMapMode | src/App.jsx:389-400 | without locations only the alert; otherwise map mode flips, and leaving it stops and rewinds playback |
| AppPlayback.RoutePlayer.CloseMapMode | src/App.jsx:474 | the map's close button leaves map mode without touching playback; the player invariant is kept |
| AppPlayback.RoutePlayer.ToggleAutoZoom | src/App.jsx:476 | the toggle flips auto-zoom and nothing else; the player invariant is kept |
| AppPlayback.RoutePlayer.Wheel | src/components/MapWheelHandler.jsx:13-19 | scrolling down turns auto-zoom off; nothing else changes; the player invariant is kept |
| AppPlayback.OnePointRoute | src/App.jsx:332-337 | a one-point route stops immediately at index 0 |
| LegacyPlayback.LegacyAdvance | src/App.tsx:801-814 | as written, a tick moves one point on while a next point exists and otherwise changes nothing; it never changes the playing flag |
| LegacyPlayback.LegacyPress | src/App.tsx:766-798 | the earlier route button: stop and rewind, alert on an empty route, or play from 0 without an end check |
| LegacyPlayback.FinishEffectIsTheDifference | src/App.tsx:801-814 | the later tick and button are exactly the earlier ones followed by the end-of-route effect |
| LegacyPlayback.SameIndices | src/App.tsx:801-814 | both versions visit the same indices; they differ only in the playing flag |
| LegacyPlayback.LegacyStaysAt | src/App.tsx:802 | with no next point, ticks change nothing |
| LegacyPlayback.LegacyNeverStops | src/App.tsx:804-809 | a tick never clears the playing flag |
| LegacyPlayback.LegacyStaysPlaying | src/App.tsx:801-814 | pressing play on n points and waiting any number of further ticks leaves playback on, on the last point |
| LegacyPlayback.LegacyReaches | src/App.tsx:801-814 | from a playing state, k ticks reach the last point and later ticks stay there |
| LegacyPlayback.LegacyRoutePlayer.constructor | src/App.tsx:69-86 | the earlier player starts stopped at index 0 with a fresh, consistent marker state |
| LegacyPlayback.LegacyRoutePlayer.PressRouteButton | src/App.tsx:766-798 | the button follows `LegacyPress` and clears all three marker refs inline unless it only alerts |
| LegacyPlayback.LegacyRoutePlayer.Tick | src/App.tsx:801-814 | a tick follows `LegacyAdvance` |
| LegacyPlayback.LegacyRoutePlayer.RouteRebuilt | src/App.tsx:761 | a rebuilt route changes only the length |
| MapMode.NextPosition | src/components/MapMode.jsx:87-89 | the next position is `path[idx+1]` exactly when idx < len-1, else none |
| MapMode.CurrentPosition | src/App.jsx:301 | the current position is `path[idx]` exactly when idx is on the path |
| MapMode.Travelled | src/components/MapMode.jsx:72 | the progress line is the prefix of length idx+1, or the whole path when shorter |
| MapMode.Render | src/components/MapMode.jsx:59-178 | the full route is drawn exactly when it has 2+ points; the progress line exactly while playing past index 0; the car exactly on a defined position; the follow camera while playing, else a recentre; the progress bar `idx+1 / len` exactly while playing a non-empty route |
| MapMode.PlayingView | src/components/MapMode.jsx:84-91 | while playing, the car follows the route position and the camera is gated by auto-zoom |
| MapMode.StoppedAtEndView | src/components/MapMode.jsx:81-94 | when a route is played through, the car stays on the last point and the map only recentres |
| MapMode.PlayThroughEnd | src/App.jsx:304-337 | the end state of a played-through route is what the press and ticks produce |
| MapBoundsUpdater.ZoomForDistance | src/components/MapBoundsUpdater.jsx:50-63 | the target zoom is within [14, 18], 18 exactly below 0.1 km and 14 exactly from 5 km |
| MapBoundsUpdater.ZoomForDistanceMonotone | src/components/MapBoundsUpdater.jsx:50-63 | a farther next point never gets a closer zoom |
| MapBoundsUpdater.Follow | src/components/MapBoundsUpdater.jsx:26-70 | nothing happens when disabled or without a position; otherwise the view is centred on the current position, keeping the zoom without a next point and using the distance table with one |
| MapBoundsUpdater.FollowZoomInRange | src/components/MapBoundsUpdater.jsx:42-69 | with a next point the map always moves, to a zoom between 14 and 18 |
| AnimatedCarMarker.Duration | src/components/AnimatedCarMarker.jsx:73-79 | the duration is within [200, 600] ms, 600 from 10 km on, and 200 exactly for distance 0 |
| AnimatedCarMarker.DurationMonotone | src/components/AnimatedCarMarker.jsx:78-79 | a longer move never animates faster |
| AnimatedCarMarker.Progress | src/components/AnimatedCarMarker.jsx:84-85 | progress is at most 1, non-negative for non-negative time, and 1 exactly once the duration has elapsed |
| AnimatedCarMarker.Ease | src/components/AnimatedCarMarker.jsx:88-90 | the easing maps 0 to 0 and 1 to 1 and stays in [0, 1] |
| AnimatedCarMarker.EaseMonotone | src/components/AnimatedCarMarker.jsx:88-90 | the eased value never moves backwards |
| AnimatedCarMarker.Lerp | src/components/AnimatedCarMarker.jsx:92-93 | interpolation gives the start at 0 and the target at 1 |
| AnimatedCarMarker.LerpBetween | src/components/AnimatedCarMarker.jsx:92-93 | for an eased fraction in [0, 1] the interpolated value lies between the start and the target |
| AnimatedCarMarker.Interpolate | src/components/AnimatedCarMarker.jsx:92-93 | the marker is at the start at eased 0 and at the target at eased 1 |
| AnimatedCarMarker.CarMarker.constructor | src/components/AnimatedCarMarker.jsx:6-8 | the three refs start empty |
| AnimatedCarMarker.CarMarker.Show | src/components/AnimatedCarMarker.jsx:42-120 | with no marker one is created at the position, which becomes the previous position; an unchanged position starts nothing; a new one starts a move from the previous position |
| AnimatedCarMarker.CarMarker.Frame | src/components/AnimatedCarMarker.jsx:83-105 | a frame draws the interpolated position, and the previous position becomes the target only when progress reaches 1 |
| AnimatedCarMarker.CarMarker.Reset | src/components/AnimatedCarMarker.jsx:126-136 | `resetCarMarker` leaves marker, previous position and animation all empty |
| AnimatedCarMarker.MoveArrives | src/components/AnimatedCarMarker.jsx:44-105 | a move followed by a frame at its duration leaves the marker resting on the target |
| AppGallery.Step | src/App.jsx:210-217 | a step stays in range and wraps at both ends |
| AppGallery.StepInverse | src/App.jsx:210-217 | a step back undoes a step forward, and the other way round |
| AppGallery.Without | src/App.jsx:195 | the filter keeps exactly the photos with another id, in order |
| AppGallery.WithoutMembers | src/App.jsx:195 | a photo survives the filter exactly when it was in the collection with another id |
| AppGallery.WithoutAbsent | src/App.jsx:195 | a collection without the id passes the filter unchanged |
| AppGallery.WithoutAppend | src/App.jsx:195 | the filter distributes over concatenation |
| AppGallery.WithoutOne | src/App.jsx:195 | with distinct ids, removing one photo takes out exactly that one |
| AppGallery.WithoutKeepsUnique | src/App.jsx:195 | removal keeps ids distinct |
| AppGallery.FindIndex | src/App.jsx:190 | `find` by id fails exactly when no photo has the id, else gives the first such photo |
| AppGallery.Gallery.Selected | src/App.jsx:43 | the shown photo is in the collection, and is the one with the selected id when there is one |
| AppGallery.Gallery.constructor | src/App.jsx:28-39 | the gallery starts with nothing selected at index 0 |
| AppGallery.Gallery.Navigate | src/App.jsx:210-217 | navigation does nothing without photos, else steps the index with wrap-around and selects that photo |
| AppGallery.Gallery.SelectedAt | src/App.jsx:43 | the photo with the selected id is the one shown |
| AppGallery.Gallery.PressArrow | src/App.tsx:509-549 | arrow keys are ignored in map mode, while typing or without photos, and otherwise step like navigation |
| AppGallery.Gallery.LightboxJump | src/App.jsx:167-170 | jumping to index i selects photo i everywhere |
| AppGallery.Gallery.LightboxStep | src/App.jsx:171-182 | a lightbox step wraps from the lightbox index and selects that photo |
| AppGallery.Gallery.Remove | src/App.jsx:189-208 | removal filters the photo out; removing the selected one selects `min(index, len-1)`, or nothing and index 0 when none is left |
| AppGallery.RemoveOther | src/App.jsx:198 | removing a photo other than the selected one leaves the shown photo as it was |
| Grouping.Join | src/components/ThumbnailMarkers.jsx:48-49 | joining appends the index to one group and leaves the others unchanged |
| Grouping.Found | src/components/ThumbnailMarkers.jsx:51-52 | founding appends a new last group holding the index |
| Grouping.JoinKeepsPartition | src/components/ThumbnailMarkers.jsx:47-53 | joining the next index keeps the groups an ascending partition |
| Grouping.FoundKeepsPartition | src/components/ThumbnailMarkers.jsx:47-53 | founding a group for the next index keeps the groups an ascending partition |
| Grouping.PartitionUnique | src/components/ThumbnailMarkers.jsx:47-53 | each index lies in exactly one group, at exactly one position |
| ThumbnailMarkers.FirstNear | src/components/ThumbnailMarkers.jsx:36-45 | the first group whose FIRST member is within 0.0005 in both axes, with no earlier group near; none when no group is near |
| ThumbnailMarkers.Stacking | src/components/ThumbnailMarkers.jsx:33-54 | the groups built so far are well formed |
| ThumbnailMarkers.Place | src/components/ThumbnailMarkers.jsx:36-53 | placing one more location keeps the groups well formed over one more index |
| ThumbnailMarkers.PlaceSpec | src/components/ThumbnailMarkers.jsx:36-53 | placing location k-1 keeps the groups an ascending partition with each stack index equal to the position in the group |
| ThumbnailMarkers.StackingSpec | src/components/ThumbnailMarkers.jsx:33-54 | the groups partition the indices in ascending lists, and each index's stack index is its position in its group |
| ThumbnailMarkers.Founders | src/components/ThumbnailMarkers.jsx:47-53 | every index gets a stack index, and index 0 goes exactly to the group founders |
| ThumbnailMarkers.OnlyFirstMemberCounts | src/components/ThumbnailMarkers.jsx:37-41 | a point near a group's second member but not its first founds a new group |
| ThumbnailMarkers.CalculateStackIndices | src/components/ThumbnailMarkers.jsx:28-57 | the loop computes exactly the specified stack indices |
| ThumbnailMarkers.FindGroup | src/components/ThumbnailMarkers.jsx:36-45 | the inner loop finds exactly the first near group |
| ThumbnailMarkers.ZOffset | src/components/ThumbnailMarkers.jsx:146 | the z-offset is 100 times the stack index, and 0 when the lookup misses |
| ThumbnailMarkers.ZOffsetOrder | src/components/ThumbnailMarkers.jsx:72 | a founder sits at z-offset 0 and the p-th later member at 100·p |
| MapTimeline.DateKey | src/components/MapTimeline.jsx:91-95 | a falsy timestamp gives "unknown", any other its local day |
| MapTimeline.Keys | src/components/MapTimeline.jsx:99 | one day key per route point |
| MapTimeline.FirstWithKey | src/components/MapTimeline.jsx:100 | the first group with the day, with no earlier group having it |
| MapTimeline.DateGroups | src/components/MapTimeline.jsx:98-105 | the day groups built so far are well formed |
| MapTimeline.DateGroupsSpec | src/components/MapTimeline.jsx:98-105 | every point is in exactly one group; members share its day, groups have distinct days, in first-occurrence order, each ascending |
| MapTimeline.Entries | src/components/MapTimeline.jsx:125 | one entry per day group |
| MapTimeline.FindEntry | src/components/MapTimeline.jsx:100 | a found entry has the day |
| MapTimeline.AddItem | src/components/MapTimeline.jsx:100-103 | an item joins its day's entry, or opens a new last entry |
| MapTimeline.GroupStep | src/components/MapTimeline.jsx:98-105 | the entries of one more point are the previous entries with that point added |
| MapTimeline.AddToGroupsSpec | src/components/MapTimeline.jsx:98-105 | adding one route point keeps the groups a partition by day in first-occurrence order |
| MapTimeline.ReducedIsGrouped | src/components/MapTimeline.jsx:98-105 | the reduce over the first k points equals the entries of the first k points' date groups |
| MapTimeline.GroupByDate | src/components/MapTimeline.jsx:98-105 | the reduce gives exactly the entries of the day groups, each item tagged with its route index |
| MapTimeline.Timeline | src/components/MapTimeline.jsx:98-125 | each item is the route point at its original index, under that point's day, and no two entries share a day |
| MapTimeline.StatusOf | src/components/MapTimeline.jsx:141-142 | an item is active exactly at the current index, and past exactly below it |
| MapTimeline.ExactlyOneActive | src/components/MapTimeline.jsx:140-142 | while the current index is on the route, exactly one timeline item is active |
| MapTimeline.DateGroupsUnique | src/components/MapTimeline.jsx:98-105 | each route point lies in exactly one date group, at exactly one position |
| MapTimeline.AddressLoader.constructor | src/components/MapTimeline.jsx:13-15 | nothing is loaded, loading or requested at mount |
| MapTimeline.AddressLoader.LoadAddresses | src/components/MapTimeline.jsx:31-61 | one run requests exactly `NewKeys`, in route order: the log grows by those keys, the loaded set by their set, and the addresses and loading flags change exactly at those keys (the stored address, and not loading); nothing else changes; afterwards every key of the route is loaded, cached or was loading; the log keeps each key at most once |
| MapTimeline.AddressLoader.Visit | src/components/MapTimeline.jsx:33-56 | a key that is loaded, cached or was loading leaves every field as it was; any other key is requested |
| MapTimeline.NewKeys | src/components/MapTimeline.jsx:33-44 | a key is requested exactly when it is on the route and not loaded, cached or loading; no key twice; no more keys than the route has |
| MapTimeline.Advance | src/components/MapTimeline.jsx:33-56 | one more key of the route either leaves the requested keys as they were (when skipped against the keys loaded so far) or appends it, and then the log, loaded set, addresses and flags each grow by that one key |
| MapTimeline.LoggedAppend | src/components/MapTimeline.jsx:37-46 | appending distinct keys that were not loaded, and marking them loaded, keeps every key logged at most once and every logged key loaded |
| MapTimeline.NothingNew | src/components/MapTimeline.jsx:36-38 | when every key of the route is already loaded, cached or loading, a run requests nothing |
| MapTimeline.AddressLoader.Request | src/components/MapTimeline.jsx:46-56 | a request marks the key loaded, records one lookup, stores the address or the placeholder, and ends with the key not loading |
| MapTimeline.Stored | src/components/MapTimeline.jsx:51-53 | the stored address is never empty: the lookup's line, or the placeholder when the lookup failed or gave "" |
| MapTimeline.SecondRunRequestsNothing | src/components/MapTimeline.jsx:36-46 | a second run over the same route requests nothing new; the first requests no cached key and at most one lookup per key of the route |
| GeocodingUtils.Or | src/utils/geocodingUtils.js:43 | `a \|\| b` on optional strings is truthy exactly when one side is, and prefers the left |
| GeocodingUtils.Push | src/utils/geocodingUtils.js:43-57 | `if (x) parts.push(x)` appends exactly the truthy values |
| GeocodingUtils.KoreanParts | src/utils/geocodingUtils.js:41-50 | the Korean order yields at most 6 non-empty parts, each a field of the address |
| GeocodingUtils.ForeignParts | src/utils/geocodingUtils.js:51-58 | the other order yields at most 5 non-empty parts, each a field of the address |
| GeocodingUtils.Parts | src/utils/geocodingUtils.js:40-58 | the parts follow the country's order, are non-empty and come from the address |
| GeocodingUtils.JoinEmpty | src/utils/geocodingUtils.js:60 | joining non-empty parts is empty exactly when there are none |
| GeocodingUtils.EmptyAddress | src/utils/geocodingUtils.js:33-66 | the address line is empty exactly when no part is found and `display_name` is falsy |
| GeocodingUtils.FormatAddress | src/utils/geocodingUtils.js:33-66 | without an address or with no part found, the line is `display_name` when truthy, else "" |
| GeocodingUtils.DisplayNameFallback | src/utils/geocodingUtils.js:63-66 | `display_name` is used only when the address yields no part |
| GeocodingUtils.CoarseToFine | src/utils/geocodingUtils.js:41-58 | a Korean line starts with its province (or state); a foreign one ends with its country |
| GeocodingUtils.KoreaOmitsCountry | src/utils/geocodingUtils.js:41-50 | a Korean line never names the country unless another field repeats it |
| GeocodingUtils.FirstSpace | src/utils/geocodingUtils.js:60 | the first space of a string, or its length |
| GeocodingUtils.SplitJoin | src/utils/geocodingUtils.js:60 | splitting a line joined from single words gives the words back |
| GeocodingUtils.LineRecoversParts | src/utils/geocodingUtils.js:60-66 | an address of single-word fields is recovered part by part from its line |
| GeocodingUtils.Geocoder.constructor | src/utils/geocodingUtils.js:2 | the cache starts empty |
| GeocodingUtils.Geocoder.Reverse | src/utils/geocodingUtils.js:8-76 | a hit returns the cached line without a request; a miss makes a request; a failure returns null and leaves the cache; a response is formatted, cached (even when empty) and returned |
| GeocodingUtils.LookupTwice | src/utils/geocodingUtils.js:12-14 | after a successful lookup the same position is answered from the cache, with one request in all |
| GeocodingUtils.FailureRetried | src/utils/geocodingUtils.js:72-75 | a failed lookup is not cached: the next lookup makes a new request |
| BoardMode.TopmostBelow | src/components/BoardMode.jsx:395-415 | the highest index whose box covers the point, with no higher box covering it; -1 when none does |
| BoardMode.ToBoard | src/components/BoardMode.jsx:396-397 | the board point maps back to the screen point under the offset and scale |
| BoardMode.GetPhotoAtPosition | src/components/BoardMode.jsx:395-415 | the reverse scan returns exactly the topmost photo under `(m - offset)/scale`, or -1 |
| BoardMode.TopmostWins | src/components/BoardMode.jsx:400-412 | a photo drawn later wins over any photo below it at the same point |
| BoardMode.Clamp | src/components/BoardMode.jsx:879 | `max(lo, min(hi, v))` lies in [lo, hi] and is v when v already does |
| BoardMode.ZoomKeepsPoint | src/components/BoardMode.jsx:880-887 | zooming about the pointer keeps the board point under it fixed |
| BoardMode.WheelScale | src/components/BoardMode.jsx:876-879 | the wheel scale is the old scale times 0.9 (down) or 1.1 (up), clamped to [0.2, 3]; it never grows for a downward wheel and never shrinks otherwise |
| BoardMode.PinchRatio | src/components/BoardMode.jsx:740-743 | the per-step ratio is the distance ratio when that lies in [0.95, 1.05], else 0.95 below and 1.05 above; so at least 1 when the fingers spread and at most 1 when they close |
| BoardMode.PinchScale | src/components/BoardMode.jsx:744 | the pinch scale is the scale times the step ratio when that lies in [0.2, 3], else 0.2 below and 3 above; it stays within 5% of an in-range old scale, in the pinch's direction |
| BoardMode.ZoomIn | src/components/BoardMode.jsx:1024 | the zoom-in button gives `min(3, scale * 1.2)` |
| BoardMode.ZoomOut | src/components/BoardMode.jsx:1034 | the zoom-out button gives `max(0.2, scale / 1.2)` |
| BoardMode.ZoomInThenOut | src/components/BoardMode.jsx:1024-1034 | zooming in then out returns to the same scale while no bound is hit |
| BoardMode.FindSaved | src/components/BoardMode.jsx:88-90 | the first saved layout matching by `imageId` or `image.id`; none when no layout matches |
| BoardMode.Carried | src/components/BoardMode.jsx:93-103 | a reused layout keeps place, size, rotation, pin colour and captions, with the new image |
| BoardMode.Matched | src/components/BoardMode.jsx:87-106 | every image is matched exactly when the filtered list is as long as the images, and then each entry is its image's carried layout |
| BoardMode.ReuseLayouts | src/components/BoardMode.jsx:84-116 | saved layouts are reused exactly when non-empty, equal in count and all matched, and then entry i is image i's carried layout |
| BoardMode.BoardWidth | src/components/BoardMode.jsx:123 | the board is at least 2000 wide and twice the container |
| BoardMode.BoardHeight | src/components/BoardMode.jsx:124 | the board is at least 1500 high and twice the container |
| BoardMode.FreshSize | src/components/BoardMode.jsx:127-137 | the longer side is 280 and the aspect ratio is kept |
| BoardMode.GridColumns | src/components/BoardMode.jsx:140 | `ceil(sqrt(1.5 n))`, the least c with c² ≥ 1.5 n, at least 1 for a non-empty board |
| BoardMode.GridRows | src/components/BoardMode.jsx:141 | `ceil(n / cols)` |
| BoardMode.KeepOnBoard | src/components/BoardMode.jsx:169-170 | a coordinate is at least 40, at most the limit when the limit allows, and unchanged inside |
| BoardMode.FreshLayout | src/components/BoardMode.jsx:126-179 | a fresh layout has the fresh size, x and y ≥ 40 and inside the board margin, pin colour `palette[index mod 7]`, rotation in [-15, 15) |
| BoardMode.CellsDistinct | src/components/BoardMode.jsx:140-147 | distinct images get distinct grid cells |
| BoardMode.CellInGrid | src/components/BoardMode.jsx:140-147 | every image's row lies inside the `ceil(n / cols)` rows of the grid |
| BoardMode.LayoutEffect | src/components/BoardMode.jsx:79-182 | no images or no mounted board: nothing changes; saved layouts that match every image are taken; otherwise photo `i` gets `FreshLayout` of image `i` with its own random draws and the board's client size, carrying that image |
| BoardMode.MovePhoto | src/components/BoardMode.jsx:489-501 | a photo drag rewrites only the dragged layout's x and y |
| BoardMode.DragBack | src/components/BoardMode.jsx:481-501 | dropping a photo where it was grabbed leaves the layouts unchanged |
| BoardMode.Grab | src/components/BoardMode.jsx:440-447 | the grab point is the pointer's board point relative to the photo's corner |
| BoardMode.Smooth | src/components/BoardMode.jsx:505-517 | the new velocity is the midpoint of the old one and the latest movement per 16 ms |
| BoardMode.Glide | src/components/BoardMode.jsx:569-599 | a glide moves the board in the release direction, at most 12.5 times the release velocity |
| BoardMode.Board.constructor | src/components/BoardMode.jsx:29-50 | the board starts with no drag, glide, pinch, hover or selection |
| BoardMode.Board.PointerDown | src/components/BoardMode.jsx:418-464 | during a pinch a touch changes nothing; otherwise the topmost photo under the pointer starts a photo drag with its grab point and leaves the board drag, glide and velocity tracking alone, or the board drag starts, the glide stops and the velocity resets; layouts, offset and scale never change |
| BoardMode.Board.PointerMove | src/components/BoardMode.jsx:466-537 | during a pinch a touch changes nothing; the drag flag follows the 5 / 10 pixel threshold; a photo drag moves only that photo; a board drag moves the offset and smooths the velocity; otherwise only the hovered photo changes (mouse only) |
| BoardMode.Board.Release | src/components/BoardMode.jsx:539-566 | drags end; a photo that was not dragged is selected; a dragged board glides when faster than 0.5 |
| BoardMode.Board.MouseLeave | src/components/BoardMode.jsx:601-617 | drags end, and a board drag glides when fast enough, even one that never passed the drag threshold |
| BoardMode.Board.TouchEnd | src/components/BoardMode.jsx:822-867 | lifting fingers ends a pinch below two fingers and resumes a board drag from the last finger; with none left, drags end, an undragged photo is selected and a fast board drag glides; any other lift changes nothing |
| BoardMode.Board.Wheel | src/components/BoardMode.jsx:874-891 | the wheel changes only offset and scale: `WheelScale` about the pointer, keeping the point under it fixed |
| BoardMode.Board.PinchStart | src/components/BoardMode.jsx:642-660 | two fingers end any drag and start a pinch at their distance and centre |
| BoardMode.Board.PinchMove | src/components/BoardMode.jsx:713-760 | the first move starts the pinch: drags end, the centre and distance are recorded, scale and offset stay; later moves keep the drag state and the pinch centre and, with both distances positive, apply `PinchScale` about that centre, keeping it fixed, else change nothing; layouts never change |
| BoardMode.Board.ZoomInButton | src/components/BoardMode.jsx:1024 | the button applies `ZoomIn` |
| BoardMode.Board.ZoomOutButton | src/components/BoardMode.jsx:1034 | the button applies `ZoomOut` |
| BoardMode.Board.Reset | src/components/BoardMode.jsx:906-917 | scale 1, and the board centred in the container when it holds photos |
| BoardMode.Board.GlideFrame | src/components/BoardMode.jsx:569-599 | a slow glide stops and zeroes the velocity; otherwise the board moves by the velocity, which decays by 0.92 |
| BoardMode.Board.RunGlide | src/components/BoardMode.jsx:569-599 | n frames move the board by exactly the glide distance of the starting velocity |

## Left out

- JavaScript `Date`: parsing a date string is a total function parameter `parseDate`, and the local day of a timestamp is a parameter `localDay`. An invalid date's NaN key and the never-taken `catch` branches are not modelled.
- MetadataUtils.DateLabel: states which description the date is rendered from, not the rendered "DD. Month. YYYY" text.
- `toFixed` formatting: the decimal label keeps the absolute values as reals (`GpsLabel.Decimal`). The cache keys of the geocoder and the timeline are given as strings.
- Floating point: numbers are exact reals, so rounding and `Infinity` are not modelled. Square roots are compared squared: the release speed, and `ceil(sqrt(1.5 n))` as the least c with 2c² ≥ 3n.
- Non-string descriptions (`String(x)` conversion): descriptions are strings or absent. Rational pairs in a tag's value array are modelled (`Exif.Entry.Pair`), but only as something that is not a number: the text JavaScript makes of `pair + number` is not.
- Text.Lower: lower-cases A-Z only; the Unicode case mapping of `toLowerCase` is not modelled. The words it is compared with ("south", "west", "s", "w") are ASCII.
- MetadataUtils.FormatMetadata: the exposure field is the corrected join `ExifSummary`, not the text the source's regular expressions leave; the two differ only for the focal length alone or the f-number alone (`ExifAgreement`, and the first row of the findings).
- MetadataUtils.ExifAsWritten: its own contract bounds only the length; its value in every case with absent or plain parts is given by `ExifAgreement` and the case lemmas.
- Great-circle distance: a non-negative parameter of `MapBoundsUpdater.Follow` and `AnimatedCarMarker.CarMarker.Show`.
- Network:
  - The `fetch` of `reverseGeocode` is its outcome, given as a parameter; `None` stands for a failed request, a non-ok status or a bad body.
  - The 300 ms delay between lookups is not modelled.
  - Overlapping asynchronous runs of `loadAddresses` are not modelled; one run is one method call.
- `getCachedAddress` is imported by MapTimeline.jsx but not defined in geocodingUtils.js. The cached addresses are a set parameter.
- Timers and animation frames: ticks and frames are method calls.
- IndexedDB, uploads (`processFiles`), the thumbnail canvas, Leaflet and canvas drawing, `html2canvas` and downloads are not part of this model. Of `createThumbnail`, only the size rule is modelled.
- The marker animation of App.tsx (a fixed 800 ms animation) is not part of this model.
- BoardMode:
  - `Math.random` is given as the parameters `dx`, `dy` and `turn`.
  - Pointer coordinates are taken as already relative to the canvas.
  - The mouse-button check, cursor styles, the welcome-message timer and the canvas-missing branches are left out.
  - `pinchStartScale` and `pinchStartOffset` are written but never read, so they are left out.
- BoardMode.LayoutEffect: covers the layouts only. The initial offset chosen after fresh layouts (lines 186-196) and the `onPhotoLayoutsChange` callback are left out. It requires every loaded image to have a positive natural size, as an image that fired `onload` has; a zero-size image, whose aspect ratio would be NaN, is not modelled.
- BoardMode.Glide: bounds the distance travelled. It does not prove that a glide ends.
- BoardMode.ToBoard: requires a positive scale. Every zoom keeps the scale within [0.2, 3].

## Findings

| source | as written | input that shows it | evidently intended | confidence | as-written member | corrected member |
|---|---|---|---|---|---|---|
| src/utils/metadataUtils.js:17 | the exposure summary is cleaned with `replace(/^,\s*\|,\s*$/g, '')` then `replace(/,\s*,/g, ',')`, which leaves a separator when two neighbouring parts are missing | FNumber "f/2.8" alone gives ", f/2.8"; FocalLength "50 mm" alone gives "50 mm, " | the present descriptions joined by ", " ("f/2.8", "50 mm") | high; not executed | MetadataUtils.ExifLeadingCommaSurvives | MetadataUtils.ExifSummary |
| src/App.tsx:801-814 | the tick effect runs only while `index < len-1`, so its updater's `prev >= len-1` branch never runs and playback is never switched off | a 3-point route: after 2 ticks the index is 2 and `isRoutePlaying` stays true forever | playback stops on the last point, as the later src/App.jsx:332-337 does | high; not executed | LegacyPlayback.LegacyStaysPlaying | AppPlayback.PlayThrough |
