/** The whiteboard viewport: a zoom factor and a pan offset that map logical
    canvas coordinates to client (screen) coordinates, and the zoom steps of
    the wheel and of the toolbar buttons. Coordinates are exact reals. */
module Viewport {

  datatype Point = Point(x: real, y: real)

  function Add(p: Point, q: Point): Point {
    Point(p.x + q.x, p.y + q.y)
  }

  function Sub(p: Point, q: Point): Point {
    Point(p.x - q.x, p.y - q.y)
  }

  const Origin := Point(0.0, 0.0)

  /** Bounds every zoom step clamps to. */
  const MinZoom: real := 0.1
  const MaxZoom: real := 3.0

  predicate ValidZoom(z: real) {
    MinZoom <= z <= MaxZoom
  }

  /** `Math.max(0.1, Math.min(3, z))`. */
  function Clamp(z: real): (r: real)
    ensures ValidZoom(r)
    ensures ValidZoom(z) ==> r == z
    ensures z < MinZoom ==> r == MinZoom
    ensures z > MaxZoom ==> r == MaxZoom
  {
    if z > MaxZoom then MaxZoom else if z < MinZoom then MinZoom else z
  }

  /** Where the page draws a logical point: the canvas layer is translated
      by the pan offset inside its container, and an element at `p` is
      placed at `p * zoom` within that layer. `origin` is the container's
      top-left corner in client coordinates. */
  function ToScreen(p: Point, origin: Point, pan: Point, zoom: real): Point {
    Point(p.x * zoom + pan.x + origin.x, p.y * zoom + pan.y + origin.y)
  }

  /** Client point to logical point, subtracting the container corner and
      the pan once: `(client - origin - pan) / zoom` on each axis. It
      inverts `ToScreen`, so the result is the logical point drawn under
      the cursor. */
  function ToLogical(client: Point, origin: Point, pan: Point, zoom: real): (p: Point)
    requires zoom != 0.0
    ensures ToScreen(p, origin, pan, zoom) == client
  {
    var dx := client.x - origin.x - pan.x;
    var dy := client.y - origin.y - pan.y;
    var p := Point(dx / zoom, dy / zoom);
    DivMul(dx, zoom);
    DivMul(dy, zoom);
    assert p.x * zoom + pan.x + origin.x == client.x;
    assert p.y * zoom + pan.y + origin.y == client.y;
    p
  }

  /** The conversion the mouse handlers actually perform: they subtract
      the bounding rectangle's corner of the canvas layer, which is the
      container corner already moved by the pan, and then the pan again. */
  function ToLogicalAsWritten(client: Point, origin: Point, pan: Point, zoom: real): (p: Point)
    requires zoom != 0.0
    ensures p == ToLogical(client, Add(origin, pan), pan, zoom)
  {
    Point((client.x - (origin.x + pan.x) - pan.x) / zoom, (client.y - (origin.y + pan.y) - pan.y) / zoom)
  }

  /** The as-written point is drawn one pan offset away from the cursor:
      exactly at the cursor only when the pan is zero. */
  lemma AsWrittenOffByPan(client: Point, origin: Point, pan: Point, zoom: real)
    requires zoom != 0.0
    ensures ToScreen(ToLogicalAsWritten(client, origin, pan, zoom), origin, pan, zoom) == Sub(client, pan)
    ensures ToScreen(ToLogicalAsWritten(client, origin, pan, zoom), origin, pan, zoom) == client <==> pan == Origin
  {
    var p := ToLogicalAsWritten(client, origin, pan, zoom);
    assert ToScreen(p, Add(origin, pan), pan, zoom) == client;
  }

  /** A click at client (50, 0) with the container at the origin, pan
      (10, 0) and zoom 1 lands on the point drawn there, (40, 0), with one
      subtraction of the pan, and on (30, 0) as written. */
  lemma PanTwiceExample()
    ensures ToLogical(Point(50.0, 0.0), Origin, Point(10.0, 0.0), 1.0) == Point(40.0, 0.0)
    ensures ToLogicalAsWritten(Point(50.0, 0.0), Origin, Point(10.0, 0.0), 1.0) == Point(30.0, 0.0)
  {
  }

  lemma DivMul(a: real, z: real)
    requires z != 0.0
    ensures (a / z) * z == a
  {
  }

  /** The other round trip: converting a logical point to the screen and
      back gives the same logical point. */
  lemma ScreenLogicalRoundTrip(p: Point, origin: Point, pan: Point, zoom: real)
    requires zoom != 0.0
    ensures ToLogical(ToScreen(p, origin, pan, zoom), origin, pan, zoom) == p
  {
    var q := ToLogical(ToScreen(p, origin, pan, zoom), origin, pan, zoom);
    assert q.x * zoom == p.x * zoom;
    assert q.y * zoom == p.y * zoom;
    MulCancel(q.x, p.x, zoom);
    MulCancel(q.y, p.y, zoom);
  }

  lemma MulCancel(a: real, b: real, z: real)
    requires z != 0.0 && a * z == b * z
    ensures a == b
  {
    assert (a - b) * z == 0.0;
  }

  /** Wheel zoom: one tick scales by 0.9 when scrolling down (`deltaY > 0`)
      and by 1.1 otherwise, clamped to the zoom bounds. Scrolling down never
      zooms in, scrolling up never zooms out (within the bounds), an
      unclamped step is exactly the scale factor, and a step past a bound
      lands on that bound. */
  function WheelZoom(zoom: real, deltaY: real): (r: real)
    ensures ValidZoom(r)
    ensures deltaY > 0.0 && ValidZoom(zoom) ==> r <= zoom
    ensures deltaY <= 0.0 && ValidZoom(zoom) ==> r >= zoom
    ensures deltaY > 0.0 && ValidZoom(zoom * 0.9) ==> r == zoom * 0.9
    ensures deltaY <= 0.0 && ValidZoom(zoom * 1.1) ==> r == zoom * 1.1
    ensures deltaY > 0.0 && zoom * 0.9 < MinZoom ==> r == MinZoom
    ensures deltaY > 0.0 && zoom * 0.9 > MaxZoom ==> r == MaxZoom
    ensures deltaY <= 0.0 && zoom * 1.1 < MinZoom ==> r == MinZoom
    ensures deltaY <= 0.0 && zoom * 1.1 > MaxZoom ==> r == MaxZoom
  {
    var factor := if deltaY > 0.0 then 0.9 else 1.1;
    Clamp(zoom * factor)
  }

  /** Toolbar zoom-in: `Math.min(3, z * 1.2)`. */
  function ZoomIn(z: real): (r: real)
    ensures r <= MaxZoom
    ensures ValidZoom(z) ==> ValidZoom(r) && r >= z
    ensures z * 1.2 <= MaxZoom ==> r == z * 1.2
    ensures z * 1.2 >= MaxZoom ==> r == MaxZoom
  {
    if z * 1.2 < MaxZoom then z * 1.2 else MaxZoom
  }

  /** Toolbar zoom-out: `Math.max(0.1, z / 1.2)`. */
  function ZoomOut(z: real): (r: real)
    ensures r >= MinZoom
    ensures ValidZoom(z) ==> ValidZoom(r) && r <= z
    ensures z / 1.2 >= MinZoom ==> r == z / 1.2
    ensures z / 1.2 <= MinZoom ==> r == MinZoom
  {
    if z / 1.2 > MinZoom then z / 1.2 else MinZoom
  }

  /** One discrete zoom command: a toolbar button or a wheel tick. */
  datatype ZoomStep = StepIn | StepOut | Wheel(deltaY: real)

  function ApplyZoomStep(z: real, step: ZoomStep): real {
    match step
    case StepIn => ZoomIn(z)
    case StepOut => ZoomOut(z)
    case Wheel(d) => WheelZoom(z, d)
  }

  function ApplyZoomSteps(z: real, steps: seq<ZoomStep>): real
    decreases |steps|
  {
    if steps == [] then z else ApplyZoomSteps(ApplyZoomStep(z, steps[0]), steps[1..])
  }

  /** Starting from the initial zoom 1, no sequence of zoom commands leaves
      the bounds [0.1, 3]. */
  lemma {:induction false} ZoomStaysInBounds(z: real, steps: seq<ZoomStep>)
    requires ValidZoom(z)
    ensures ValidZoom(ApplyZoomSteps(z, steps))
    decreases |steps|
  {
    if steps != [] {
      ZoomStaysInBounds(ApplyZoomStep(z, steps[0]), steps[1..]);
    }
  }

  lemma InitialZoomInBounds(steps: seq<ZoomStep>)
    ensures ValidZoom(ApplyZoomSteps(1.0, steps))
  {
    ZoomStaysInBounds(1.0, steps);
  }
}
