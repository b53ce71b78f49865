/** The whiteboard canvas's mouse handlers. The canvas keeps a small
    gesture state of its own (drawing, dragging, the pen path buffer and the
    drag anchor); everything else (tool, zoom, pan) arrives from the parent,
    and the handlers answer with requests to the parent: create an element,
    set the pan, set the zoom. */
module WhiteboardCanvas {
  import opened Common
  import opened Viewport
  import opened ElementStore

  /** The toolbar's tools. Only select, pen, text and sticky have a
      cursor behaviour. */
  datatype Tool = Select | Pen | Text | Rectangle | Circle | Arrow | Sticky | Card

  /** The canvas component's own state. */
  datatype Gesture = Gesture(
    isDrawing: bool,
    currentPath: seq<Point>,
    isDragging: bool,
    dragStart: Point)

  const InitialGesture := Gesture(false, [], false, Origin)

  /** The props a handler reads: active tool, zoom and pan. */
  datatype View = View(tool: Tool, zoom: real, pan: Point)

  /** A handler's result: the canvas's next gesture state and the calls it
      made to the parent (`onElementCreate`, `onPanChange`,
      `onZoomChange`). */
  datatype Output = Output(
    gesture: Gesture,
    created: Option<Element>,
    pan: Option<Point>,
    zoom: Option<real>)

  /** Default text element placed by the text tool at logical point `p`. */
  function TextDraft(p: Point): Element {
    map[
      "type" := Str("text"),
      "x" := Num(p.x), "y" := Num(p.y),
      "width" := Num(200.0), "height" := Num(40.0),
      "content" := Obj(map["text" := Str("New text"), "fontSize" := Num(16.0)])]
  }

  /** Default sticky note placed by the sticky tool at logical point `p`. */
  function StickyDraft(p: Point): Element {
    map[
      "type" := Str("sticky"),
      "x" := Num(p.x), "y" := Num(p.y),
      "width" := Num(200.0), "height" := Num(120.0),
      "content" := Obj(map["text" := Str("New note"), "color" := Str("#FEF3C7")])]
  }

  /** Freehand path committed on mouse-up. */
  function PathDraft(points: seq<Point>): Element {
    map[
      "type" := Str("path"),
      "path" := Points(points),
      "strokeWidth" := Num(2.0),
      "color" := Str("#000000")]
  }

  /** Field `k` of `d` is present and equals `v`. */
  predicate FieldIs(d: Element, k: string, v: Value) {
    k in d && d[k] == v
  }

  predicate IsShapeTool(t: Tool) {
    t == Rectangle || t == Circle || t == Arrow || t == Card
  }

  /** `handleMouseDown`. The select tool starts a pan drag anchored at the
      client point; the pen seeds the path with the single logical point;
      text and sticky create their default element at the logical point;
      the other tools do nothing. `origin` is the container's corner and
      the logical point is the one drawn under the cursor (`ToLogical`; the
      page's handler subtracts the pan twice, see `ToLogicalAsWritten`). */
  function MouseDown(g: Gesture, v: View, client: Point, origin: Point): (r: Output)
    requires v.zoom != 0.0
    ensures r.pan.None? && r.zoom.None?
    ensures v.tool == Select ==>
      r.created.None? && r.gesture == g.(isDragging := true, dragStart := client)
    ensures v.tool == Pen ==>
      && r.created.None?
      && r.gesture.isDrawing
      && |r.gesture.currentPath| == 1
      && ToScreen(r.gesture.currentPath[0], origin, v.pan, v.zoom) == client
      && r.gesture == g.(isDrawing := true, currentPath := r.gesture.currentPath)
    ensures v.tool == Text || v.tool == Sticky ==>
      && r.gesture == g
      && r.created.Some?
      && FieldIs(r.created.value, "type", Str(if v.tool == Text then "text" else "sticky"))
      && exists p :: ToScreen(p, origin, v.pan, v.zoom) == client &&
           r.created == Some(if v.tool == Text then TextDraft(p) else StickyDraft(p))
    ensures IsShapeTool(v.tool) ==> r == Output(g, None, None, None)
  {
    var p := ToLogical(client, origin, v.pan, v.zoom);
    match v.tool
    case Select => Output(g.(isDragging := true, dragStart := client), None, None, None)
    case Pen => Output(g.(isDrawing := true, currentPath := [p]), None, None, None)
    case Text => Output(g, Some(TextDraft(p)), None, None)
    case Sticky => Output(g, Some(StickyDraft(p)), None, None)
    case _ => Output(g, None, None, None)
  }

  /** `handleMouseMove`. While pan-dragging with the select tool, the pan
      moves by the cursor's displacement since the anchor and the anchor
      follows the cursor; while drawing with the pen, the logical point
      (converted as in `MouseDown`) is appended to the path and the earlier
      points are kept; otherwise nothing happens. */
  function MouseMove(g: Gesture, v: View, client: Point, origin: Point): (r: Output)
    requires v.zoom != 0.0
    ensures r.created.None? && r.zoom.None?
    ensures g.isDragging && v.tool == Select ==>
      && r.pan == Some(Add(v.pan, Sub(client, g.dragStart)))
      && r.gesture == g.(dragStart := client)
    ensures !(g.isDragging && v.tool == Select) && g.isDrawing && v.tool == Pen ==>
      && r.pan.None?
      && |r.gesture.currentPath| == |g.currentPath| + 1
      && r.gesture.currentPath[..|g.currentPath|] == g.currentPath
      && ToScreen(r.gesture.currentPath[|g.currentPath|], origin, v.pan, v.zoom) == client
      && r.gesture == g.(currentPath := r.gesture.currentPath)
    ensures !(g.isDragging && v.tool == Select) && !(g.isDrawing && v.tool == Pen) ==>
      r == Output(g, None, None, None)
  {
    if g.isDragging && v.tool == Select then
      Output(g.(dragStart := client), None, Some(Add(v.pan, Sub(client, g.dragStart))), None)
    else if g.isDrawing && v.tool == Pen then
      var p := ToLogical(client, origin, v.pan, v.zoom);
      Output(g.(currentPath := g.currentPath + [p]), None, None, None)
    else
      Output(g, None, None, None)
  }

  /** `handleMouseUp`, also bound to mouse-leave. A path element carrying
      the buffered points, in order, is created exactly when drawing with
      more than one point buffered; in every case drawing and dragging end
      and the buffer is emptied. */
  function MouseUp(g: Gesture): (r: Output)
    ensures r.pan.None? && r.zoom.None?
    ensures !r.gesture.isDrawing && !r.gesture.isDragging && r.gesture.currentPath == []
    ensures r.gesture.dragStart == g.dragStart
    ensures r.created.Some? <==> g.isDrawing && |g.currentPath| > 1
    ensures r.created.Some? ==>
      FieldIs(r.created.value, "type", Str("path")) && FieldIs(r.created.value, "path", Points(g.currentPath))
  {
    var created := if g.isDrawing && |g.currentPath| > 1 then Some(PathDraft(g.currentPath)) else None;
    Output(g.(isDrawing := false, isDragging := false, currentPath := []), created, None, None)
  }

  /** `handleWheel`: the only request is a new zoom, inside the bounds. */
  function Wheel(g: Gesture, v: View, deltaY: real): (r: Output)
    ensures r.gesture == g && r.created.None? && r.pan.None?
    ensures r.zoom.Some? && ValidZoom(r.zoom.value)
    ensures r.zoom.value == WheelZoom(v.zoom, deltaY)
  {
    Output(g, None, None, Some(WheelZoom(v.zoom, deltaY)))
  }
}
