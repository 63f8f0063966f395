/**
 * The photo board (src/components/BoardMode.jsx): photos laid out on a
 * large board that is panned and zoomed. A screen point `m` shows the board
 * point `(m - offset) / scale`. The pure parts are the geometry (hit test,
 * zoom about a fixed point, layouts); the `Board` class holds the state the
 * mouse and touch handlers update step by step.
 */
module BoardMode {
  import opened Wrappers
  import opened Numbers

  datatype Point = Point(x: real, y: real)

  function Add(a: Point, b: Point): Point
  {
    Point(a.x + b.x, a.y + b.y)
  }

  function Sub(a: Point, b: Point): Point
  {
    Point(a.x - b.x, a.y - b.y)
  }

  const Origin: Point := Point(0.0, 0.0)

  /** A loaded image: its id, its natural size and the captions taken from its metadata. */
  datatype BoardImage = BoardImage(id: string, naturalWidth: real, naturalHeight: real,
                                   camera: Option<string>, date: Option<string>)

  /**
   * A photo's place on the board. `imageId` is the newer saved format and
   * `image` the older one; layouts built here carry the image itself.
   */
  datatype Layout = Layout(x: real, y: real, width: real, height: real, rotation: real,
                           pinColor: string, cameraInfo: string, dateInfo: string,
                           image: Option<BoardImage>, imageId: Option<string>)

  // ---------------------------------------------------------------------------
  // Hit test
  // ---------------------------------------------------------------------------

  /** The board point shown at screen point `m`. */
  function ToBoard(m: Point, offset: Point, scale: real): (p: Point)
    requires scale > 0.0
    ensures p.x * scale + offset.x == m.x && p.y * scale + offset.y == m.y
  {
    Point((m.x - offset.x) / scale, (m.y - offset.y) / scale)
  }

  /** The hit box of a photo: 12 around it, and 50 below for the caption. */
  predicate Covers(l: Layout, p: Point)
  {
    l.x - 12.0 <= p.x <= l.x + l.width + 12.0 &&
    l.y - 12.0 <= p.y <= l.y + l.height + 50.0
  }

  /** The highest index below `k` whose box covers `p`, or -1. */
  function TopmostBelow(layouts: seq<Layout>, p: Point, k: nat): (r: int)
    requires k <= |layouts|
    ensures -1 <= r < k
    ensures r >= 0 ==> Covers(layouts[r], p)
    ensures forall j :: r < j < k ==> !Covers(layouts[j], p)
  {
    if k == 0 then -1
    else if Covers(layouts[k - 1], p) then k - 1
    else TopmostBelow(layouts, p, k - 1)
  }

  /** `getPhotoAtPosition`: the topmost photo under the screen point, or -1. */
  method GetPhotoAtPosition(layouts: seq<Layout>, m: Point, offset: Point, scale: real) returns (r: int)
    requires scale > 0.0
    ensures r == TopmostBelow(layouts, ToBoard(m, offset, scale), |layouts|)
  {
    var p := ToBoard(m, offset, scale);
    var i := |layouts| - 1;
    while i >= 0
      invariant -1 <= i < |layouts|
      invariant TopmostBelow(layouts, p, |layouts|) == TopmostBelow(layouts, p, i + 1)
    {
      var layout := layouts[i];
      if Covers(layout, p) {
        return i;
      }
      i := i - 1;
    }
    return -1;
  }

  /** A photo drawn later (higher index) wins over any photo below it at the same point. */
  lemma TopmostWins(layouts: seq<Layout>, p: Point, i: nat, j: nat)
    requires i < j < |layouts| && Covers(layouts[i], p) && Covers(layouts[j], p)
    ensures TopmostBelow(layouts, p, |layouts|) >= j
  {
  }

  // ---------------------------------------------------------------------------
  // Zoom
  // ---------------------------------------------------------------------------

  const MinScale: real := 0.2
  const MaxScale: real := 3.0

  /** `Math.max(lo, Math.min(hi, v))`. */
  function Clamp(v: real, lo: real, hi: real): (r: real)
    requires lo <= hi
    ensures lo <= r <= hi
    ensures lo <= v <= hi ==> r == v
    ensures v < lo ==> r == lo
    ensures v > hi ==> r == hi
  {
    if v > hi then hi else if v < lo then lo else v
  }

  /** The offset that keeps the board point under `m` in place when the scale changes. */
  function ZoomAbout(m: Point, offset: Point, scale: real, newScale: real): Point
    requires scale > 0.0
  {
    Point(m.x - (m.x - offset.x) * (newScale / scale),
          m.y - (m.y - offset.y) * (newScale / scale))
  }

  lemma FixedAxis(m: real, o: real, s: real, n: real)
    requires s > 0.0 && n > 0.0
    ensures (m - (m - (m - o) * (n / s))) / n == (m - o) / s
  {
    var d := m - o;
    assert d * (n / s) == (d / s) * n;
    assert (m - d * (n / s)) == m - (d / s) * n;
    assert (m - (m - (d / s) * n)) == (d / s) * n;
  }

  /** Zooming about `m` leaves the board point under `m` where it was. */
  lemma ZoomKeepsPoint(m: Point, offset: Point, scale: real, newScale: real)
    requires scale > 0.0 && newScale > 0.0
    ensures ToBoard(m, ZoomAbout(m, offset, scale, newScale), newScale) == ToBoard(m, offset, scale)
  {
    FixedAxis(m.x, offset.x, scale, newScale);
    FixedAxis(m.y, offset.y, scale, newScale);
  }

  /** Wheel zoom: 0.9 for a downward wheel, 1.1 otherwise, clamped to [0.2, 3]. */
  function WheelScale(scale: real, deltaY: real): (r: real)
    ensures MinScale <= r <= MaxScale
    ensures var v := scale * (if deltaY > 0.0 then 0.9 else 1.1);
      (MinScale <= v <= MaxScale ==> r == v) && (v < MinScale ==> r == MinScale) && (v > MaxScale ==> r == MaxScale)
    ensures MinScale <= scale <= MaxScale && deltaY > 0.0 ==> r <= scale
    ensures MinScale <= scale <= MaxScale && deltaY <= 0.0 ==> r >= scale
  {
    Clamp(scale * (if deltaY > 0.0 then 0.9 else 1.1), MinScale, MaxScale)
  }

  /** The per-step pinch ratio: the distance ratio limited to [0.95, 1.05]. */
  function PinchRatio(lastDistance: real, distance: real): (r: real)
    requires lastDistance > 0.0 && distance > 0.0
    ensures var q := distance / lastDistance;
      (0.95 <= q <= 1.05 ==> r == q) && (q < 0.95 ==> r == 0.95) && (q > 1.05 ==> r == 1.05)
    ensures 0.95 <= r <= 1.05
    ensures distance > lastDistance ==> r >= 1.0
    ensures distance < lastDistance ==> r <= 1.0
  {
    DivideCompare(distance, lastDistance);
    Clamp(distance / lastDistance, 0.95, 1.05)
  }

  lemma DivideCompare(a: real, b: real)
    requires b > 0.0
    ensures a > b ==> a / b > 1.0
    ensures a < b ==> a / b < 1.0
  {
    assert (a / b) * b == a;
    assert (a / b - 1.0) * b == a - b;
  }

  /** Pinch zoom: the scale times the pinch ratio, limited to [0.2, 3]. */
  function PinchScale(scale: real, lastDistance: real, distance: real): (r: real)
    requires lastDistance > 0.0 && distance > 0.0
    ensures var v := scale * PinchRatio(lastDistance, distance);
      (MinScale <= v <= MaxScale ==> r == v) && (v < MinScale ==> r == MinScale) && (v > MaxScale ==> r == MaxScale)
    ensures MinScale <= r <= MaxScale
    ensures MinScale <= scale <= MaxScale ==> scale * 0.95 <= r <= scale * 1.05
    ensures distance > lastDistance && MinScale <= scale <= MaxScale ==> r >= scale
    ensures distance < lastDistance && MinScale <= scale <= MaxScale ==> r <= scale
  {
    var ratio := PinchRatio(lastDistance, distance);
    Clamp(Times(scale, ratio), MinScale, MaxScale)
  }

  lemma NonNegProduct(a: real, b: real)
    ensures a >= 0.0 && b >= 0.0 ==> a * b >= 0.0
  {
  }

  /** The scale times a pinch ratio: within 5% of the scale, on the side the ratio points to. */
  function Times(s: real, ratio: real): (v: real)
    requires 0.95 <= ratio <= 1.05
    ensures s >= 0.0 ==> s * 0.95 <= v <= s * 1.05
    ensures s >= 0.0 && ratio >= 1.0 ==> v >= s
    ensures s >= 0.0 && ratio <= 1.0 ==> v <= s
  {
    assert s * ratio - s * 0.95 == s * (ratio - 0.95);
    assert s * 1.05 - s * ratio == s * (1.05 - ratio);
    assert s * ratio - s == s * (ratio - 1.0);
    NonNegProduct(s, ratio - 0.95);
    NonNegProduct(s, 1.05 - ratio);
    NonNegProduct(s, ratio - 1.0);
    NonNegProduct(s, 1.0 - ratio);
    s * ratio
  }

  /** The zoom-in button: 1.2 times, at most 3. */
  function ZoomIn(scale: real): (r: real)
    ensures r <= MaxScale
    ensures scale * 1.2 <= MaxScale ==> r == scale * 1.2
    ensures scale * 1.2 >= MaxScale ==> r == MaxScale
  {
    if scale * 1.2 < MaxScale then scale * 1.2 else MaxScale
  }

  /** The zoom-out button: divided by 1.2, at least 0.2. */
  function ZoomOut(scale: real): (r: real)
    ensures r >= MinScale
    ensures scale / 1.2 >= MinScale ==> r == scale / 1.2
    ensures scale / 1.2 <= MinScale ==> r == MinScale
  {
    if scale / 1.2 > MinScale then scale / 1.2 else MinScale
  }

  /** Zooming in and back out returns to the same scale while neither step hits a bound. */
  lemma ZoomInThenOut(scale: real)
    requires MinScale <= scale && scale * 1.2 <= MaxScale
    ensures ZoomOut(ZoomIn(scale)) == scale
  {
    assert ZoomIn(scale) / 1.2 == scale;
  }

  // ---------------------------------------------------------------------------
  // Layouts
  // ---------------------------------------------------------------------------

  /** A saved layout belongs to an image by `imageId` or by `image.id`. */
  predicate BelongsTo(l: Layout, img: BoardImage)
  {
    l.imageId == Some(img.id) || (l.image.Some? && l.image.value.id == img.id)
  }

  /** `savedPhotoLayouts.find(...)`: the first saved layout of the image. */
  function FindSaved(saved: seq<Layout>, img: BoardImage, from: nat): (r: Option<nat>)
    requires from <= |saved|
    ensures r.Some? ==> (from <= r.value < |saved| && BelongsTo(saved[r.value], img) &&
                         forall j :: from <= j < r.value ==> !BelongsTo(saved[j], img))
    ensures r.None? ==> forall j :: from <= j < |saved| ==> !BelongsTo(saved[j], img)
    decreases |saved| - from
  {
    if from == |saved| then None
    else if BelongsTo(saved[from], img) then Some(from)
    else FindSaved(saved, img, from + 1)
  }

  /** A saved layout carried over: its place, size, pin and captions, with the new image. */
  function Carried(l: Layout, img: BoardImage): (r: Layout)
    ensures r.x == l.x && r.y == l.y && r.width == l.width && r.height == l.height
    ensures r.rotation == l.rotation && r.pinColor == l.pinColor
    ensures r.cameraInfo == l.cameraInfo && r.dateInfo == l.dateInfo && r.image == Some(img)
  {
    Layout(l.x, l.y, l.width, l.height, l.rotation, l.pinColor, l.cameraInfo, l.dateInfo, Some(img), None)
  }

  /** The matched layouts of the loaded images, with the unmatched ones dropped (`filter(Boolean)`). */
  function Matched(saved: seq<Layout>, loaded: seq<BoardImage>): (r: seq<Layout>)
    ensures |r| <= |loaded|
    ensures |r| == |loaded| <==> forall i :: 0 <= i < |loaded| ==> FindSaved(saved, loaded[i], 0).Some?
    ensures |r| == |loaded| ==> forall i :: 0 <= i < |loaded| ==>
      r[i] == Carried(saved[FindSaved(saved, loaded[i], 0).value], loaded[i])
  {
    if loaded == [] then []
    else
      var rest := Matched(saved, loaded[1..]);
      assert forall i :: 1 <= i < |loaded| ==> loaded[i] == loaded[1..][i - 1];
      match FindSaved(saved, loaded[0], 0)
      case Some(j) => [Carried(saved[j], loaded[0])] + rest
      case None => rest
  }

  /** The saved layouts, carried over, when they can all be reused. */
  function ReuseLayouts(saved: seq<Layout>, loaded: seq<BoardImage>): (r: Option<seq<Layout>>)
    ensures r.Some? <==> (|saved| > 0 && |saved| == |loaded| &&
                          forall i :: 0 <= i < |loaded| ==> exists j :: 0 <= j < |saved| && BelongsTo(saved[j], loaded[i]))
    ensures r.Some? ==> |r.value| == |loaded| && forall i :: 0 <= i < |loaded| ==>
      r.value[i] == Carried(saved[FindSaved(saved, loaded[i], 0).value], loaded[i])
  {
    if |saved| > 0 && |saved| == |loaded| then
      var matched := Matched(saved, loaded);
      assert (forall i :: 0 <= i < |loaded| ==> FindSaved(saved, loaded[i], 0).Some?) <==>
        (forall i :: 0 <= i < |loaded| ==> exists j :: 0 <= j < |saved| && BelongsTo(saved[j], loaded[i])) by {
        forall i | 0 <= i < |loaded| && (exists j :: 0 <= j < |saved| && BelongsTo(saved[j], loaded[i]))
          ensures FindSaved(saved, loaded[i], 0).Some?
        {
          var j :| 0 <= j < |saved| && BelongsTo(saved[j], loaded[i]);
        }
      }
      if |matched| == |loaded| then Some(matched) else None
    else None
  }

  /** The pin colours, cycled by image index. */
  const PinColors: seq<string> := ["#ef4444", "#f97316", "#eab308", "#22c55e", "#3b82f6", "#8b5cf6", "#ec4899"]

  /** The board is twice the container, and at least 2000 by 1500. */
  function BoardWidth(containerWidth: real): (r: real)
    ensures r >= 2000.0 && r >= containerWidth * 2.0
  {
    if containerWidth * 2.0 > 2000.0 then containerWidth * 2.0 else 2000.0
  }

  function BoardHeight(containerHeight: real): (r: real)
    ensures r >= 1500.0 && r >= containerHeight * 2.0
  {
    if containerHeight * 2.0 > 1500.0 then containerHeight * 2.0 else 1500.0
  }

  /** The size of a fresh photo: its longer side 280, its aspect ratio kept. */
  function FreshSize(naturalWidth: real, naturalHeight: real): (r: (real, real))
    requires naturalWidth > 0.0 && naturalHeight > 0.0
    ensures r.0 > 0.0 && r.1 > 0.0 && r.0 <= 280.0 && r.1 <= 280.0
    ensures r.0 == 280.0 || r.1 == 280.0
    ensures r.0 * naturalHeight == r.1 * naturalWidth
  {
    var aspect := naturalWidth / naturalHeight;
    if aspect > 1.0 then
      assert 280.0 / aspect * naturalWidth == 280.0 * naturalHeight;
      (280.0, 280.0 / aspect)
    else
      assert 280.0 * aspect * naturalHeight == 280.0 * naturalWidth;
      (280.0 * aspect, 280.0)
  }

  /** `Math.ceil(Math.sqrt(n * 1.5))`: the least `c`, from `c` on, with `c * c >= 1.5 n`. */
  function GridColumnsFrom(n: nat, c: nat): (r: nat)
    requires c == 0 || 2 * (c - 1) * (c - 1) < 3 * n
    ensures 2 * r * r >= 3 * n && (r == 0 || 2 * (r - 1) * (r - 1) < 3 * n)
    decreases 3 * n - c
  {
    if 2 * c * c >= 3 * n then c
    else
      BelowDoubleSquare(c, 3 * n);
      GridColumnsFrom(n, c + 1)
  }

  lemma BelowDoubleSquare(c: nat, m: nat)
    requires 2 * c * c < m
    ensures c < m
  {
    if c > 0 {
      assert c * c >= c * 1;
    }
  }

  function GridColumns(n: nat): (r: nat)
    ensures n > 0 ==> r >= 1
    ensures 2 * r * r >= 3 * n && (r == 0 || 2 * (r - 1) * (r - 1) < 3 * n)
  {
    GridColumnsFrom(n, 0)
  }

  /** `Math.ceil(n / cols)`. */
  function GridRows(n: nat, cols: nat): (r: nat)
    requires cols >= 1
    ensures r * cols >= n && (r == 0 || (r - 1) * cols < n)
  {
    (n + cols - 1) / cols
  }

  /** `Math.max(40, Math.min(v, limit))`. */
  function KeepOnBoard(v: real, limit: real): (r: real)
    ensures r >= 40.0
    ensures 40.0 <= v <= limit ==> r == v
    ensures limit >= 40.0 ==> r <= limit
  {
    var inner := if v < limit then v else limit;
    if inner > 40.0 then inner else 40.0
  }

  /**
   * A fresh layout for image `index` of `n`: centred in its grid cell, moved
   * by the random draws `dx`, `dy` (each in [0, 1)), turned by `turn`, and
   * kept 40 from the board's left and top edges.
   */
  function FreshLayout(img: BoardImage, index: nat, n: nat, containerWidth: real, containerHeight: real,
                       dx: real, dy: real, turn: real): (l: Layout)
    requires index < n && img.naturalWidth > 0.0 && img.naturalHeight > 0.0
    ensures (l.width, l.height) == FreshSize(img.naturalWidth, img.naturalHeight)
    ensures l.x >= 40.0 && l.y >= 40.0
    ensures BoardWidth(containerWidth) - l.width >= 80.0 ==> l.x <= BoardWidth(containerWidth) - l.width - 40.0
    ensures BoardHeight(containerHeight) - l.height >= 80.0 ==> l.y <= BoardHeight(containerHeight) - l.height - 40.0
    ensures l.pinColor == PinColors[index % 7]
    ensures 0.0 <= turn < 1.0 ==> -15.0 <= l.rotation < 15.0
    ensures l.image == Some(img)
  {
    var boardWidth := BoardWidth(containerWidth);
    var boardHeight := BoardHeight(containerHeight);
    var size := FreshSize(img.naturalWidth, img.naturalHeight);
    var width, height := size.0, size.1;
    var cols := GridColumns(n);
    var rows := GridRows(n, cols);
    var cellWidth := boardWidth / cols as real;
    var cellHeight := boardHeight / rows as real;
    var col := index % cols;
    var row := index / cols;
    var x := col as real * cellWidth + cellWidth / 2.0 - width / 2.0 + (dx - 0.5) * (cellWidth - width - 60.0);
    var y := row as real * cellHeight + cellHeight / 2.0 - height / 2.0 + (dy - 0.5) * (cellHeight - height - 60.0);
    Layout(KeepOnBoard(x, boardWidth - width - 40.0), KeepOnBoard(y, boardHeight - height - 40.0),
           width, height, (turn - 0.5) * 30.0, PinColors[index % |PinColors|],
           if img.camera.Some? then img.camera.value else "",
           if img.date.Some? then img.date.value else "",
           Some(img), None)
  }

  /** Distinct images get distinct grid cells. */
  lemma CellsDistinct(n: nat, i: nat, j: nat)
    requires i < n && j < n && i != j
    ensures var cols := GridColumns(n); (i % cols, i / cols) != (j % cols, j / cols)
  {
    var cols := GridColumns(n);
    DivModSplit(i, cols);
    DivModSplit(j, cols);
  }

  lemma DivModSplit(i: nat, c: nat)
    requires c >= 1
    ensures i == (i / c) * c + i % c
  {
  }

  /** Every image's cell row is inside the grid. */
  lemma CellInGrid(n: nat, i: nat)
    requires i < n
    ensures var cols := GridColumns(n); i / cols < GridRows(n, cols)
  {
    var cols := GridColumns(n);
    DivModSplit(i, cols);
    MulMonotone(i / cols, GridRows(n, cols), cols);
  }

  lemma MulMonotone(a: nat, b: nat, c: nat)
    ensures a >= b ==> a * c >= b * c
  {
    assert a * c - b * c == (a - b) * c;
  }

  /**
   * The layouts after the layout effect: unchanged while no image has loaded
   * or the board is not mounted, the saved ones when they can all be reused,
   * else a fresh layout per image. `container` is the mounted board's client
   * size; `dx`, `dy` and `turn` are the three random draws made for each image.
   */
  function LayoutEffect(current: seq<Layout>, saved: seq<Layout>, loaded: seq<BoardImage>,
                        container: Option<(real, real)>, dx: seq<real>, dy: seq<real>, turn: seq<real>): (r: seq<Layout>)
    requires |dx| == |loaded| && |dy| == |loaded| && |turn| == |loaded|
    requires forall i :: 0 <= i < |loaded| ==> loaded[i].naturalWidth > 0.0 && loaded[i].naturalHeight > 0.0
    ensures loaded == [] || container.None? ==> r == current
    ensures loaded != [] && container.Some? && ReuseLayouts(saved, loaded).Some? ==>
      r == ReuseLayouts(saved, loaded).value
    ensures loaded != [] && container.Some? && ReuseLayouts(saved, loaded).None? ==>
      |r| == |loaded| &&
      forall i :: 0 <= i < |loaded| ==>
        r[i] == FreshLayout(loaded[i], i, |loaded|, container.value.0, container.value.1, dx[i], dy[i], turn[i]) &&
        r[i].image == Some(loaded[i])
  {
    if loaded == [] || container.None? then current
    else match ReuseLayouts(saved, loaded)
      case Some(reused) => reused
      case None =>
        var (width, height) := container.value;
        seq(|loaded|, i requires 0 <= i < |loaded| =>
          FreshLayout(loaded[i], i, |loaded|, width, height, dx[i], dy[i], turn[i]))
  }

  // ---------------------------------------------------------------------------
  // Drag and inertia
  // ---------------------------------------------------------------------------

  /** The layouts with photo `i` moved to `(x, y)` and nothing else changed. */
  function MovePhoto(layouts: seq<Layout>, i: nat, at: Point): (r: seq<Layout>)
    requires i < |layouts|
    ensures |r| == |layouts|
    ensures r[i].x == at.x && r[i].y == at.y
    ensures r[i].(x := layouts[i].x, y := layouts[i].y) == layouts[i]
    ensures forall j :: 0 <= j < |layouts| && j != i ==> r[j] == layouts[j]
  {
    layouts[i := layouts[i].(x := at.x, y := at.y)]
  }

  /** Where the grab point was taken on photo `i` (`photoDragStart`). */
  function Grab(l: Layout, m: Point, offset: Point, scale: real): (g: Point)
    requires scale > 0.0
    ensures Add(Point(l.x, l.y), g) == ToBoard(m, offset, scale)
  {
    Sub(ToBoard(m, offset, scale), Point(l.x, l.y))
  }

  /** Dragging photo `i` moves it with the pointer and back: moved to where it was grabbed, it is unchanged. */
  lemma DragBack(layouts: seq<Layout>, i: nat, m: Point, offset: Point, scale: real)
    requires i < |layouts| && scale > 0.0
    ensures MovePhoto(layouts, i, Sub(ToBoard(m, offset, scale), Grab(layouts[i], m, offset, scale))) == layouts
  {
    var r := MovePhoto(layouts, i, Sub(ToBoard(m, offset, scale), Grab(layouts[i], m, offset, scale)));
    assert r[i] == layouts[i];
  }

  /** The smoothed drag velocity, in pixels per 16 ms frame. */
  function Smooth(velocity: Point, last: Point, m: Point, dt: real): (v: Point)
    requires dt > 0.0
    ensures v.x - velocity.x == (m.x - last.x) * 16.0 / dt - v.x
    ensures v.y - velocity.y == (m.y - last.y) * 16.0 / dt - v.y
  {
    Point(velocity.x * 0.5 + (m.x - last.x) / dt * 16.0 * 0.5,
          velocity.y * 0.5 + (m.y - last.y) / dt * 16.0 * 0.5)
  }

  /** The release speed starts a glide when above 0.5 (compared squared: no square root). */
  predicate FastEnough(v: Point)
  {
    v.x * v.x + v.y * v.y > 0.25
  }

  /** A glide stops once both components are under 0.1. */
  predicate Slow(v: Point)
  {
    Abs(v.x) < 0.1 && Abs(v.y) < 0.1
  }

  function Decay(v: Point): Point
  {
    Point(v.x * 0.92, v.y * 0.92)
  }

  /** `d` lies between 0 and 12.5 times `v`. */
  predicate Within(d: real, v: real)
  {
    (v >= 0.0 ==> 0.0 <= d <= 12.5 * v) && (v <= 0.0 ==> 12.5 * v <= d <= 0.0)
  }

  /**
   * The distance the board travels in `n` glide frames from velocity `v`:
   * in the release direction, at most 12.5 times the release velocity.
   */
  function Glide(v: Point, n: nat): (d: Point)
    ensures Within(d.x, v.x) && Within(d.y, v.y)
    decreases n
  {
    if n == 0 || Slow(v) then Origin else Add(v, Glide(Decay(v), n - 1))
  }

  // ---------------------------------------------------------------------------
  // The board state
  // ---------------------------------------------------------------------------

  /**
   * The board's view (`scale`, `offset`), its layouts, and the gesture
   * state: which photo or whether the board is being dragged, the pointer
   * history used for the drag threshold and velocity, the glide, the pinch
   * and the hovered and selected photos.
   */
  class Board {
    var scale: real
    var offset: Point
    var layouts: seq<Layout>
    var draggingBoard: bool
    var draggingPhoto: int
    var grab: Point
    var dragStart: Point
    var downPos: Point
    var wasDragged: bool
    var velocity: Point
    var lastPos: Point
    var lastMoveTime: int
    var gliding: bool
    var hovered: int
    var selected: Option<Layout>
    var pinching: bool
    var lastTouchDistance: real
    var pinchCenter: Point

    ghost predicate Valid()
      reads this
    {
      scale > 0.0 && -1 <= draggingPhoto < |layouts| && -1 <= hovered < |layouts|
    }

    constructor (layouts: seq<Layout>, scale: real, offset: Point)
      requires scale > 0.0
      ensures Valid() && this.layouts == layouts && this.scale == scale && this.offset == offset
      ensures !draggingBoard && draggingPhoto == -1 && !gliding && !pinching && hovered == -1 && selected.None?
    {
      this.scale, this.offset, this.layouts := scale, offset, layouts;
      draggingBoard, draggingPhoto, grab, dragStart, downPos, wasDragged := false, -1, Origin, Origin, Origin, false;
      velocity, lastPos, lastMoveTime, gliding := Origin, Origin, 0, false;
      hovered, selected, pinching, lastTouchDistance, pinchCenter := -1, None, false, 0.0, Origin;
    }

    /**
     * Mouse down or a one-finger touch start at screen point `m`. On a photo
     * it starts dragging that photo, remembering where it was grabbed;
     * elsewhere it stops any glide and starts dragging the board. A touch is
     * ignored while pinching.
     */
    method PointerDown(m: Point, now: int, touch: bool)
      requires Valid()
      modifies this`downPos, this`wasDragged, this`draggingPhoto, this`grab, this`gliding,
               this`draggingBoard, this`dragStart, this`velocity, this`lastPos, this`lastMoveTime
      ensures Valid() && layouts == old(layouts) && scale == old(scale) && offset == old(offset)
      ensures touch && old(pinching) ==> unchanged(this)
      ensures !(touch && old(pinching)) ==>
        downPos == m && !wasDragged &&
        draggingPhoto == (if TopmostBelow(layouts, ToBoard(m, offset, scale), |layouts|) >= 0 then
          TopmostBelow(layouts, ToBoard(m, offset, scale), |layouts|) else old(draggingPhoto))
      ensures !(touch && old(pinching)) && TopmostBelow(layouts, ToBoard(m, offset, scale), |layouts|) >= 0 ==>
        grab == Grab(layouts[draggingPhoto], m, offset, scale) &&
        draggingBoard == old(draggingBoard) && gliding == old(gliding) && dragStart == old(dragStart) &&
        velocity == old(velocity) && lastPos == old(lastPos) && lastMoveTime == old(lastMoveTime)
      ensures !(touch && old(pinching)) && TopmostBelow(layouts, ToBoard(m, offset, scale), |layouts|) < 0 ==>
        draggingBoard && !gliding && dragStart == Sub(m, offset) && velocity == Origin &&
        lastPos == m && lastMoveTime == now && grab == old(grab)
    {
      if touch && pinching {
        return;
      }
      downPos := m;
      wasDragged := false;
      var photoIndex := GetPhotoAtPosition(layouts, m, offset, scale);
      if photoIndex >= 0 {
        draggingPhoto := photoIndex;
        grab := Grab(layouts[photoIndex], m, offset, scale);
      } else {
        gliding := false;
        draggingBoard := true;
        dragStart := Sub(m, offset);
        velocity := Origin;
        lastPos := m;
        lastMoveTime := now;
      }
    }

    /**
     * Mouse move or a one-finger touch move to `m`. A move beyond 5 pixels
     * (10 for touch) from the press marks a drag. A dragged photo follows
     * the pointer at its grab point; a dragged board follows the pointer and
     * the velocity is smoothed; otherwise the mouse hovers.
     */
    method PointerMove(m: Point, now: int, touch: bool)
      requires Valid()
      modifies this`wasDragged, this`layouts, this`velocity, this`lastPos, this`lastMoveTime, this`offset, this`hovered
      ensures Valid() && scale == old(scale) && |layouts| == |old(layouts)|
      ensures touch && old(pinching) ==> unchanged(this)
      ensures !(touch && old(pinching)) ==>
        wasDragged == (old(wasDragged) || Abs(m.x - downPos.x) > (if touch then 10.0 else 5.0) ||
                                          Abs(m.y - downPos.y) > (if touch then 10.0 else 5.0))
      ensures !(touch && old(pinching)) && old(draggingPhoto) >= 0 ==>
        layouts == MovePhoto(old(layouts), old(draggingPhoto), Sub(ToBoard(m, offset, scale), grab)) &&
        offset == old(offset) && velocity == old(velocity) && lastPos == old(lastPos) &&
        lastMoveTime == old(lastMoveTime) && hovered == old(hovered)
      ensures !(touch && old(pinching)) && old(draggingPhoto) < 0 && old(draggingBoard) ==>
        layouts == old(layouts) && offset == Sub(m, dragStart) && lastPos == m && lastMoveTime == now &&
        velocity == (if now - old(lastMoveTime) > 0 then Smooth(old(velocity), old(lastPos), m, (now - old(lastMoveTime)) as real)
                     else old(velocity)) &&
        hovered == old(hovered)
      ensures !(touch && old(pinching)) && old(draggingPhoto) < 0 && !old(draggingBoard) ==>
        layouts == old(layouts) && offset == old(offset) && velocity == old(velocity) &&
        lastPos == old(lastPos) && lastMoveTime == old(lastMoveTime) &&
        hovered == (if touch then old(hovered) else TopmostBelow(layouts, ToBoard(m, offset, scale), |layouts|))
    {
      if touch && pinching {
        return;
      }
      var threshold := if touch then 10.0 else 5.0;
      if Abs(m.x - downPos.x) > threshold || Abs(m.y - downPos.y) > threshold {
        wasDragged := true;
      }
      if draggingPhoto >= 0 {
        layouts := MovePhoto(layouts, draggingPhoto, Sub(ToBoard(m, offset, scale), grab));
      } else if draggingBoard {
        var dt := now - lastMoveTime;
        if dt > 0 {
          velocity := Smooth(velocity, lastPos, m, dt as real);
        }
        lastPos := m;
        lastMoveTime := now;
        offset := Sub(m, dragStart);
      } else if !touch {
        hovered := GetPhotoAtPosition(layouts, m, offset, scale);
      }
    }

    /**
     * Mouse up, or the last finger lifted: ends any drag; a photo pressed and
     * not dragged is selected; a board dragged and released fast enough glides.
     */
    method Release()
      requires Valid()
      modifies this`draggingBoard, this`draggingPhoto, this`selected, this`gliding
      ensures Valid()
      ensures !draggingBoard && draggingPhoto == -1
      ensures selected == (if old(draggingPhoto) >= 0 && !wasDragged then Some(layouts[old(draggingPhoto)])
                           else old(selected))
      ensures gliding == (old(gliding) || (old(draggingBoard) && wasDragged && FastEnough(velocity)))
    {
      var wasPhotoClick := draggingPhoto >= 0 && !wasDragged;
      var clicked := draggingPhoto;
      var wasBoardDrag := draggingBoard;
      draggingBoard := false;
      draggingPhoto := -1;
      if wasPhotoClick {
        selected := Some(layouts[clicked]);
      }
      if wasBoardDrag && wasDragged && FastEnough(velocity) {
        gliding := true;
      }
    }

    /** The mouse leaves the board: drags end, and a dragged board glides if fast enough, dragged or not. */
    method MouseLeave()
      requires Valid()
      modifies this`draggingBoard, this`draggingPhoto, this`gliding
      ensures Valid()
      ensures !draggingBoard && draggingPhoto == -1
      ensures gliding == (old(gliding) || (old(draggingBoard) && FastEnough(velocity)))
    {
      var wasBoardDrag := draggingBoard;
      draggingBoard := false;
      draggingPhoto := -1;
      if wasBoardDrag && FastEnough(velocity) {
        gliding := true;
      }
    }

    /** Fingers lifted with `remaining` still down. */
    method TouchEnd(remaining: nat, touch: Point, now: int)
      requires Valid()
      modifies this`pinching, this`lastTouchDistance, this`draggingBoard, this`dragStart, this`velocity,
               this`lastPos, this`lastMoveTime, this`draggingPhoto, this`selected, this`gliding
      ensures Valid() && layouts == old(layouts) && scale == old(scale)
      ensures old(pinching) && remaining < 2 ==> !pinching && lastTouchDistance == 0.0
      ensures old(pinching) && remaining == 1 ==>
        draggingBoard && dragStart == Sub(touch, offset) && velocity == Origin && lastPos == touch &&
        lastMoveTime == now && draggingPhoto == old(draggingPhoto) &&
        selected == old(selected) && gliding == old(gliding)
      ensures !(old(pinching) && remaining == 1) && remaining > 0 ==> unchanged(this)
      ensures remaining == 0 ==>
        !draggingBoard && draggingPhoto == -1 &&
        selected == (if old(draggingPhoto) >= 0 && !wasDragged then Some(layouts[old(draggingPhoto)])
                     else old(selected)) &&
        gliding == (old(gliding) || (old(draggingBoard) && wasDragged && FastEnough(velocity))) &&
        dragStart == old(dragStart) && velocity == old(velocity) && lastPos == old(lastPos) &&
        lastMoveTime == old(lastMoveTime)
    {
      if remaining < 2 && pinching {
        pinching := false;
        lastTouchDistance := 0.0;
        if remaining == 1 {
          draggingBoard := true;
          dragStart := Sub(touch, offset);
          velocity := Origin;
          lastPos := touch;
          lastMoveTime := now;
          return;
        }
      }
      if remaining > 0 {
        return;
      }
      Release();
    }

    /** The wheel zooms about the pointer. */
    method Wheel(m: Point, deltaY: real)
      requires Valid()
      modifies this`offset, this`scale
      ensures Valid() && layouts == old(layouts)
      ensures scale == WheelScale(old(scale), deltaY)
      ensures offset == ZoomAbout(m, old(offset), old(scale), scale)
      ensures ToBoard(m, offset, scale) == ToBoard(m, old(offset), old(scale))
    {
      var newScale := WheelScale(scale, deltaY);
      ZoomKeepsPoint(m, offset, scale, newScale);
      offset := ZoomAbout(m, offset, scale, newScale);
      scale := newScale;
    }

    /** Two fingers down: any drag ends and a pinch starts at their distance and centre. */
    method PinchStart(distance: real, center: Point)
      requires Valid()
      modifies this`draggingBoard, this`draggingPhoto, this`pinching, this`lastTouchDistance, this`pinchCenter
      ensures Valid()
      ensures !draggingBoard && draggingPhoto == -1 && pinching
      ensures lastTouchDistance == distance && pinchCenter == center
    {
      draggingBoard := false;
      draggingPhoto := -1;
      pinching := true;
      lastTouchDistance := distance;
      pinchCenter := center;
    }

    /**
     * Two fingers move: the first such move starts the pinch; later ones zoom
     * about the pinch centre by the change in distance.
     */
    method PinchMove(distance: real, center: Point)
      requires Valid()
      modifies this`draggingBoard, this`draggingPhoto, this`pinching, this`lastTouchDistance, this`pinchCenter,
               this`scale, this`offset
      ensures Valid() && layouts == old(layouts) && pinching
      ensures !old(pinching) ==>
        !draggingBoard && draggingPhoto == -1 && pinchCenter == center &&
        scale == old(scale) && offset == old(offset) && lastTouchDistance == distance
      ensures old(pinching) ==>
        draggingBoard == old(draggingBoard) && draggingPhoto == old(draggingPhoto) && pinchCenter == old(pinchCenter)
      ensures old(pinching) && old(lastTouchDistance) > 0.0 && distance > 0.0 ==>
        scale == PinchScale(old(scale), old(lastTouchDistance), distance) &&
        offset == ZoomAbout(old(pinchCenter), old(offset), old(scale), scale) &&
        ToBoard(old(pinchCenter), offset, scale) == ToBoard(old(pinchCenter), old(offset), old(scale)) &&
        lastTouchDistance == distance
      ensures old(pinching) && !(old(lastTouchDistance) > 0.0 && distance > 0.0) ==>
        scale == old(scale) && offset == old(offset) && lastTouchDistance == old(lastTouchDistance)
    {
      if !pinching {
        PinchStart(distance, center);
        return;
      }
      if lastTouchDistance > 0.0 && distance > 0.0 {
        var newScale := PinchScale(scale, lastTouchDistance, distance);
        ZoomKeepsPoint(pinchCenter, offset, scale, newScale);
        offset := ZoomAbout(pinchCenter, offset, scale, newScale);
        scale := newScale;
        lastTouchDistance := distance;
      }
    }

    method ZoomInButton()
      requires Valid()
      modifies this`scale
      ensures Valid() && scale == ZoomIn(old(scale))
    {
      scale := ZoomIn(scale);
    }

    method ZoomOutButton()
      requires Valid()
      modifies this`scale
      ensures Valid() && scale == ZoomOut(old(scale))
    {
      scale := ZoomOut(scale);
    }

    /** The reset button: scale 1, and the board centred in the container when it holds photos. */
    method Reset(containerWidth: real, containerHeight: real)
      requires Valid()
      modifies this`scale, this`offset
      ensures Valid() && scale == 1.0
      ensures |layouts| > 0 ==> offset == Point((containerWidth - BoardWidth(containerWidth)) / 2.0,
                                                (containerHeight - BoardHeight(containerHeight)) / 2.0)
      ensures |layouts| == 0 ==> offset == old(offset)
    {
      scale := 1.0;
      if |layouts| > 0 {
        offset := Point((containerWidth - BoardWidth(containerWidth)) / 2.0,
                        (containerHeight - BoardHeight(containerHeight)) / 2.0);
      }
    }

    /** One animation frame of the glide: stop when slow, else move by the velocity and decay it. */
    method GlideFrame()
      requires Valid()
      modifies this`offset, this`velocity, this`gliding
      ensures Valid()
      ensures !old(gliding) ==> offset == old(offset) && velocity == old(velocity) && !gliding
      ensures old(gliding) && Slow(old(velocity)) ==> !gliding && velocity == Origin && offset == old(offset)
      ensures old(gliding) && !Slow(old(velocity)) ==>
        gliding && offset == Add(old(offset), old(velocity)) && velocity == Decay(old(velocity))
    {
      if !gliding {
        return;
      }
      if Slow(velocity) {
        velocity := Origin;
        gliding := false;
        return;
      }
      offset := Add(offset, velocity);
      velocity := Decay(velocity);
    }

    /**
     * `startInertiaAnimation` and the next `frames` frames: the board moves
     * by the glide distance of the release velocity.
     */
    method RunGlide(frames: nat)
      requires Valid()
      modifies this`offset, this`velocity, this`gliding
      ensures Valid()
      ensures offset == Add(old(offset), Glide(old(velocity), frames))
    {
      gliding := true;
      var k := 0;
      while k < frames
        invariant 0 <= k <= frames && Valid()
        invariant gliding || velocity == Origin
        invariant Add(offset, Glide(velocity, frames - k)) == Add(old(offset), Glide(old(velocity), frames))
      {
        if gliding && !Slow(velocity) {
          assert Glide(velocity, frames - k) == Add(velocity, Glide(Decay(velocity), frames - k - 1));
        }
        GlideFrame();
        k := k + 1;
      }
      assert Glide(velocity, 0) == Origin;
    }
  }
}
