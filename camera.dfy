/** The camera of the stage: a uniform scale and a translation, composed as
    `screen = scene * scale + position`. Zooming multiplies the scale by a fixed
    step, clamps it to [MinZoom, MaxZoom], and moves the stage so that the scene
    point under the focal point stays under it. All arithmetic is exact. */
module Camera {
  import opened Options
  import opened Geometry

  const ZoomButtonScale: real := 1.1
  const MinZoom: real := 0.5
  const MaxZoom: real := 3.0

  datatype Camera = Camera(scale: real, x: real, y: real)

  predicate InBounds(s: real)
  {
    MinZoom <= s <= MaxZoom
  }

  /** The factor a zoom step applies: a positive direction zooms in, any other
      direction (zero included) zooms out. */
  function ZoomAmount(direction: real): (r: real)
    ensures r > 0.0
    ensures direction > 0.0 ==> r == ZoomButtonScale
    ensures direction <= 0.0 ==> r * ZoomButtonScale == 1.0
  {
    if direction > 0.0 then ZoomButtonScale else 1.0 / ZoomButtonScale
  }

  /** `Math.max(MIN_ZOOM, Math.min(MAX_ZOOM, v))`. */
  function ClampScale(v: real): (r: real)
    ensures InBounds(r)
    ensures InBounds(v) ==> r == v
    ensures v < MinZoom ==> r == MinZoom
    ensures v > MaxZoom ==> r == MaxZoom
  {
    Max(MinZoom, Min(MaxZoom, v))
  }

  /** The scale after one zoom step, whatever the scale before it. */
  function NextScale(scale: real, direction: real): (r: real)
    ensures InBounds(r)
    ensures InBounds(scale * ZoomAmount(direction)) ==> r == scale * ZoomAmount(direction)
  {
    ClampScale(scale * ZoomAmount(direction))
  }

  /** Scene coordinates of the screen point `p` under camera `c`. */
  function SceneOf(c: Camera, p: Point): Point
    requires c.scale != 0.0
  {
    Point((p.x - c.x) / c.scale, (p.y - c.y) / c.scale)
  }

  /** Screen coordinates of the scene point `q` under camera `c`. */
  function ScreenOf(c: Camera, q: Point): Point
  {
    Point(q.x * c.scale + c.x, q.y * c.scale + c.y)
  }

  /** The focal point: the pointer when there is one, else the stage centre. */
  function ZoomCenter(pointer: Option<Point>, width: real, height: real): (p: Point)
    ensures pointer.Some? ==> p == pointer.value
    ensures pointer.None? ==> p == Point(width / 2.0, height / 2.0)
  {
    match pointer
    case Some(q) => q
    case None => Point(width / 2.0, height / 2.0)
  }

  /** One zoom step about the screen point `center`. */
  function ZoomCamera(c: Camera, direction: real, center: Point): (r: Camera)
    requires c.scale != 0.0
    ensures InBounds(r.scale) && r.scale == NextScale(c.scale, direction)
  {
    var s := NextScale(c.scale, direction);
    var mousePointTo := SceneOf(c, center);
    Camera(s, center.x - mousePointTo.x * s, center.y - mousePointTo.y * s)
  }

  /** The scene rectangle shown by a stage of the given size. */
  function VisibleRect(c: Camera, width: real, height: real): (r: Rect)
    requires c.scale != 0.0
    ensures c.scale > 0.0 && width > 0.0 && height > 0.0 ==> HasArea(r)
  {
    Rect(-c.x / c.scale, -c.y / c.scale, width / c.scale, height / c.scale)
  }

  /** The focal point shows the same scene point before and after the zoom. */
  lemma FocalPointFixed(c: Camera, direction: real, center: Point)
    requires c.scale != 0.0
    ensures SceneOf(ZoomCamera(c, direction, center), center) == SceneOf(c, center)
    ensures ScreenOf(ZoomCamera(c, direction, center), SceneOf(c, center)) == center
  {
    var r := ZoomCamera(c, direction, center);
    var m := SceneOf(c, center);
    assert center.x - r.x == m.x * r.scale;
    assert center.y - r.y == m.y * r.scale;
  }

  /** A zoom step that clamping turns into no change of scale leaves the
      position where it was. */
  lemma SaturatedZoomKeepsPosition(c: Camera, direction: real, center: Point)
    requires c.scale != 0.0
    requires NextScale(c.scale, direction) == c.scale
    ensures ZoomCamera(c, direction, center) == c
  {
  }

  /** Zooming in at the maximum, or out at the minimum, changes nothing. */
  lemma ZoomAtBoundIsNoOp(c: Camera, direction: real, center: Point)
    requires (c.scale == MaxZoom && direction > 0.0) || (c.scale == MinZoom && direction <= 0.0)
    ensures ZoomCamera(c, direction, center) == c
  {
    SaturatedZoomKeepsPosition(c, direction, center);
  }

  /** A positive direction never shrinks an in-bounds scale and grows it below
      the maximum; any other direction, zero included, never grows it and
      shrinks it above the minimum. */
  lemma ZoomDirection(scale: real, direction: real)
    requires InBounds(scale)
    ensures direction > 0.0 ==> NextScale(scale, direction) >= scale
    ensures direction > 0.0 && scale < MaxZoom ==> NextScale(scale, direction) > scale
    ensures direction <= 0.0 ==> NextScale(scale, direction) <= scale
    ensures direction <= 0.0 && scale > MinZoom ==> NextScale(scale, direction) < scale
  {
  }

  /** Two cameras with the same scale that show the same scene point at one
      screen point are the same camera. */
  lemma SameSceneSameCamera(a: Camera, b: Camera, p: Point)
    requires a.scale == b.scale && a.scale != 0.0
    requires SceneOf(a, p) == SceneOf(b, p)
    ensures a == b
  {
  }

  /** Zooming in and then out at the same point, with no clamping on the way in,
      restores the camera exactly. */
  lemma ZoomInThenOutRestores(c: Camera, center: Point)
    requires InBounds(c.scale) && c.scale * ZoomButtonScale <= MaxZoom
    ensures ZoomCamera(ZoomCamera(c, 1.0, center), -1.0, center) == c
  {
    var c1 := ZoomCamera(c, 1.0, center);
    assert c1.scale == c.scale * ZoomButtonScale;
    var c2 := ZoomCamera(c1, -1.0, center);
    assert c2.scale == c.scale;
    FocalPointFixed(c, 1.0, center);
    FocalPointFixed(c1, -1.0, center);
    SameSceneSameCamera(c2, c, center);
  }

  /** Zooming out and then in at the same point, with no clamping on the way out,
      restores the camera exactly. */
  lemma ZoomOutThenInRestores(c: Camera, center: Point)
    requires InBounds(c.scale) && c.scale / ZoomButtonScale >= MinZoom
    ensures ZoomCamera(ZoomCamera(c, -1.0, center), 1.0, center) == c
  {
    var c1 := ZoomCamera(c, -1.0, center);
    assert c1.scale == c.scale / ZoomButtonScale;
    var c2 := ZoomCamera(c1, 1.0, center);
    assert c2.scale == c.scale;
    FocalPointFixed(c, -1.0, center);
    FocalPointFixed(c1, 1.0, center);
    SameSceneSameCamera(c2, c, center);
  }

  /** The visible rectangle is exactly the set of scene points that the camera
      maps onto the stage's `width` by `height` screen area. */
  lemma VisibleRectIsScreenArea(c: Camera, width: real, height: real, q: Point)
    requires c.scale > 0.0
    ensures InsideClosed(q, VisibleRect(c, width, height)) <==>
            InsideClosed(ScreenOf(c, q), Rect(0.0, 0.0, width, height))
  {
    var r := VisibleRect(c, width, height);
    var p := ScreenOf(c, q);
    // each bound of the rectangle is the matching screen bound divided by the scale
    assert r.x * c.scale == -c.x;
    assert r.y * c.scale == -c.y;
    assert (r.x + r.width) * c.scale == width - c.x;
    assert (r.y + r.height) * c.scale == height - c.y;
    assert r.x <= q.x <==> r.x * c.scale <= q.x * c.scale;
    assert q.x <= r.x + r.width <==> q.x * c.scale <= (r.x + r.width) * c.scale;
    assert r.y <= q.y <==> r.y * c.scale <= q.y * c.scale;
    assert q.y <= r.y + r.height <==> q.y * c.scale <= (r.y + r.height) * c.scale;
  }

  /** The button zooms (no pointer) keep the stage centre's scene point fixed. */
  lemma ButtonZoomKeepsCentre(c: Camera, direction: real, width: real, height: real)
    requires c.scale != 0.0
    ensures var center := ZoomCenter(None, width, height);
            SceneOf(ZoomCamera(c, direction, center), center) == SceneOf(c, center)
  {
    FocalPointFixed(c, direction, ZoomCenter(None, width, height));
  }
}
