/** The whiteboard page: the state the page component owns (title, save
    status, tool, element store, selection, zoom, pan, undo/redo history)
    together with the canvas's gesture state, and one transition per user
    event. The save timer is an explicit completion event. */
module Whiteboard {
  import opened Common
  import opened Viewport
  import opened ElementStore
  import opened WhiteboardCanvas

  /** The save indicator. `Error` is declared by the source but never set. */
  datatype SaveStatus = Saved | Saving | Unsaved | Error

  datatype Board = Board(
    title: string,
    status: SaveStatus,
    pendingSaves: nat,
    tool: Tool,
    elements: seq<Element>,
    selected: Option<Element>,
    zoom: real,
    pan: Point,
    canUndo: bool,
    canRedo: bool,
    history: seq<seq<Element>>,
    historyIndex: int,
    gesture: Gesture)

  /** The page as first rendered. */
  const Init := Board(
    "Research Framework Overview", Saved, 0, Select, [], None,
    1.0, Origin, false, false, [], -1, InitialGesture)

  /** The history cursor points into the history, or is -1 when it is
      empty. */
  predicate HistoryInRange(b: Board) {
    -1 <= b.historyIndex < |b.history|
  }

  /** User and timer events. Events that may create an element carry the
      fresh id the source draws from `Date.now() + Math.random()`; mouse
      events carry the canvas container's top-left corner. */
  datatype Event =
    | TitleChange(newTitle: string)
    | Save
    | SaveDone
    | ToolChange(newTool: Tool)
    | MouseDown(client: Point, origin: Point, freshId: real)
    | MouseMove(client: Point, origin: Point)
    | MouseUp(freshId: real)
    | MouseLeave(freshId: real)
    | WheelTick(deltaY: real)
    | ElementSelect(id: real)
    | ElementUpdate(id: real, updates: Element)
    | UndoEvent
    | RedoEvent
    | ZoomInEvent
    | ZoomOutEvent
    | ResetZoom

  function ViewOf(b: Board): View {
    View(b.tool, b.zoom, b.pan)
  }

  /** `handleTitleChange`: new title, status unsaved. */
  function ChangeTitle(b: Board, title: string): (r: Board)
    ensures r.title == title && r.status == Unsaved
    ensures r.(title := b.title, status := b.status) == b
  {
    b.(title := title, status := Unsaved)
  }

  /** `handleSave`: status saving, and one more save timer pending. */
  function StartSave(b: Board): (r: Board)
    ensures r.status == Saving && r.pendingSaves == b.pendingSaves + 1
    ensures r.(status := b.status, pendingSaves := b.pendingSaves) == b
  {
    b.(status := Saving, pendingSaves := b.pendingSaves + 1)
  }

  /** A save timer fires: status saved. Without a pending timer nothing
      happens. The timer is not cancelled by later edits, so it reports
      saved even after them. */
  function FinishSave(b: Board): (r: Board)
    ensures b.pendingSaves > 0 ==> r.status == Saved && r.pendingSaves == b.pendingSaves - 1
    ensures b.pendingSaves > 0 ==> r.(status := b.status, pendingSaves := b.pendingSaves) == b
    ensures b.pendingSaves == 0 ==> r == b
  {
    if b.pendingSaves > 0 then b.(status := Saved, pendingSaves := b.pendingSaves - 1) else b
  }

  /** `handleElementCreate`: the draft, with the fresh id, goes to the end
      of the store; status becomes unsaved; nothing else changes. */
  function CreateElement(b: Board, draft: Element, newId: real): (r: Board)
    ensures |r.elements| == |b.elements| + 1
    ensures r.elements[..|b.elements|] == b.elements
    ensures HasId(r.elements[|b.elements|], newId)
    ensures r.elements[|b.elements|].Keys == draft.Keys + {"id"}
    ensures forall k :: k in draft && k != "id" ==> r.elements[|b.elements|][k] == draft[k]
    ensures r.status == Unsaved
    ensures r.(elements := b.elements, status := b.status) == b
  {
    b.(elements := Create(b.elements, draft, newId), status := Unsaved)
  }

  /** `handleElementSelect`: the selection is the first element with that
      id, or none; the store is untouched. */
  function SelectElement(b: Board, id: real): (r: Board)
    ensures r.selected.None? <==> forall i :: 0 <= i < |b.elements| ==> !HasId(b.elements[i], id)
    ensures r.selected.Some? ==> HasId(r.selected.value, id) && r.selected.value in b.elements
    ensures r.selected.Some? ==>
      exists i :: 0 <= i < |b.elements| && b.elements[i] == r.selected.value
        && forall j :: 0 <= j < i ==> !HasId(b.elements[j], id)
    ensures r.(selected := b.selected) == b
  {
    b.(selected := Find(b.elements, id))
  }

  /** `handleElementUpdate`: fields merged into the elements carrying the
      id; status unsaved. An unknown id leaves the store as it was. The
      merge builds new element objects, so the selection still holds the
      element as it was when it was selected and is not refreshed. */
  function UpdateElement(b: Board, id: real, updates: Element): (r: Board)
    ensures |r.elements| == |b.elements|
    ensures forall i :: 0 <= i < |b.elements| && !HasId(b.elements[i], id) ==> r.elements[i] == b.elements[i]
    ensures forall i :: 0 <= i < |b.elements| && HasId(b.elements[i], id) ==>
      r.elements[i] == Merge(b.elements[i], updates)
    ensures (forall i :: 0 <= i < |b.elements| ==> !HasId(b.elements[i], id)) ==> r.elements == b.elements
    ensures r.status == Unsaved
    ensures r.(elements := b.elements, status := b.status) == b
  {
    b.(elements := Update(b.elements, id, updates), status := Unsaved)
  }

  /** `handleUndo`: acts only when undo is enabled and the cursor is past
      the first snapshot; then it steps the cursor back, restores that
      snapshot and enables redo. */
  function Undo(b: Board): (r: Board)
    requires HistoryInRange(b)
    ensures !(b.canUndo && b.historyIndex > 0) ==> r == b
    ensures b.canUndo && b.historyIndex > 0 ==>
      && r.historyIndex == b.historyIndex - 1
      && r.elements == b.history[b.historyIndex - 1]
      && r.canRedo
      && (r.canUndo <==> b.historyIndex - 1 != 0)
      && r.(historyIndex := b.historyIndex, elements := b.elements, canUndo := b.canUndo, canRedo := b.canRedo) == b
    ensures HistoryInRange(r) && r.history == b.history
  {
    if b.canUndo && b.historyIndex > 0 then
      b.(historyIndex := b.historyIndex - 1,
         elements := b.history[b.historyIndex - 1],
         canRedo := true,
         canUndo := if b.historyIndex - 1 == 0 then false else b.canUndo)
    else b
  }

  /** `handleRedo`: acts only when redo is enabled and the cursor is before
      the last snapshot; then it steps the cursor forward, restores that
      snapshot and enables undo. */
  function Redo(b: Board): (r: Board)
    requires HistoryInRange(b)
    ensures !(b.canRedo && b.historyIndex < |b.history| - 1) ==> r == b
    ensures b.canRedo && b.historyIndex < |b.history| - 1 ==>
      && r.historyIndex == b.historyIndex + 1
      && r.elements == b.history[b.historyIndex + 1]
      && r.canUndo
      && (r.canRedo <==> b.historyIndex + 1 != |b.history| - 1)
      && r.(historyIndex := b.historyIndex, elements := b.elements, canUndo := b.canUndo, canRedo := b.canRedo) == b
    ensures HistoryInRange(r) && r.history == b.history
  {
    if b.canRedo && b.historyIndex < |b.history| - 1 then
      b.(historyIndex := b.historyIndex + 1,
         elements := b.history[b.historyIndex + 1],
         canUndo := true,
         canRedo := if b.historyIndex + 1 == |b.history| - 1 then false else b.canRedo)
    else b
  }

  /** `handleResetZoom`: zoom 1 and pan at the origin. */
  function ResetView(b: Board): (r: Board)
    ensures r.zoom == 1.0 && r.pan == Origin
    ensures r.(zoom := b.zoom, pan := b.pan) == b
  {
    b.(zoom := 1.0, pan := Origin)
  }

  /** Applies a canvas handler's requests the way the page's callbacks do:
      the canvas keeps its new gesture state, `onElementCreate` appends the
      element with the fresh id and marks the board unsaved, and
      `onPanChange` and `onZoomChange` set the pan and the zoom. Nothing
      else changes. */
  function ApplyOutput(b: Board, out: Output, freshId: real): (r: Board)
    ensures r.gesture == out.gesture
    ensures out.created.None? ==> r.elements == b.elements && r.status == b.status
    ensures out.created.Some? ==>
      && r.elements == CreateElement(b, out.created.value, freshId).elements
      && r.status == Unsaved
    ensures out.pan.Some? ==> r.pan == out.pan.value
    ensures out.pan.None? ==> r.pan == b.pan
    ensures out.zoom.Some? ==> r.zoom == out.zoom.value
    ensures out.zoom.None? ==> r.zoom == b.zoom
    ensures r.(gesture := b.gesture, elements := b.elements, status := b.status, pan := b.pan, zoom := b.zoom) == b
  {
    var b1 := b.(gesture := out.gesture);
    var b2 := if out.created.Some? then CreateElement(b1, out.created.value, freshId) else b1;
    var b3 := if out.pan.Some? then b2.(pan := out.pan.value) else b2;
    if out.zoom.Some? then b3.(zoom := out.zoom.value) else b3
  }

  /** The conditions under which every event is defined: a usable zoom and
      an in-range history cursor. */
  predicate WellFormed(b: Board) {
    b.zoom != 0.0 && HistoryInRange(b)
  }

  /** One event of the page. Every event leaves the board well formed, so
      any sequence of events is defined; no event writes the history; the
      tool changes only on a tool event; only the zoom controls and the
      wheel change the zoom, and they keep it in bounds. */
  function Step(b: Board, e: Event): (r: Board)
    requires WellFormed(b)
    ensures WellFormed(r)
    ensures r.history == b.history
    ensures e.ToolChange? ==> r == b.(tool := e.newTool)
    ensures !e.ToolChange? ==> r.tool == b.tool
    ensures !(e.ZoomInEvent? || e.ZoomOutEvent? || e.WheelTick? || e.ResetZoom?) ==> r.zoom == b.zoom
    ensures ValidZoom(b.zoom) ==> ValidZoom(r.zoom)
    ensures r.title != b.title ==> e.TitleChange?
  {
    match e
    case TitleChange(t) => ChangeTitle(b, t)
    case Save => StartSave(b)
    case SaveDone => FinishSave(b)
    case ToolChange(t) => b.(tool := t)
    case MouseDown(c, o, id) => ApplyOutput(b, WhiteboardCanvas.MouseDown(b.gesture, ViewOf(b), c, o), id)
    case MouseMove(c, o) => ApplyOutput(b, WhiteboardCanvas.MouseMove(b.gesture, ViewOf(b), c, o), 0.0)
    case MouseUp(id) => ApplyOutput(b, WhiteboardCanvas.MouseUp(b.gesture), id)
    case MouseLeave(id) => ApplyOutput(b, WhiteboardCanvas.MouseUp(b.gesture), id)
    case WheelTick(d) => ApplyOutput(b, WhiteboardCanvas.Wheel(b.gesture, ViewOf(b), d), 0.0)
    case ElementSelect(id) => SelectElement(b, id)
    case ElementUpdate(id, u) => UpdateElement(b, id, u)
    case UndoEvent => Undo(b)
    case RedoEvent => Redo(b)
    case ZoomInEvent => b.(zoom := ZoomIn(b.zoom))
    case ZoomOutEvent => b.(zoom := ZoomOut(b.zoom))
    case ResetZoom => ResetView(b)
  }

  /** The invariant of every state reachable from `Init`: the zoom is in
      bounds, the history is still empty with the cursor at -1, and neither
      undo nor redo is enabled. */
  predicate Reachable(b: Board) {
    && ValidZoom(b.zoom)
    && b.history == []
    && b.historyIndex == -1
    && !b.canUndo
    && !b.canRedo
  }

  /** Every event keeps the reachable-state invariant. */
  lemma StepPreservesReachable(b: Board, e: Event)
    requires Reachable(b)
    ensures WellFormed(b)
    ensures Reachable(Step(b, e))
  {
  }

  /** The state after a sequence of events. */
  function Run(b: Board, events: seq<Event>): (r: Board)
    requires Reachable(b)
    ensures Reachable(r)
    decreases |events|
  {
    if events == [] then b
    else
      StepPreservesReachable(b, events[0]);
      Run(Step(b, events[0]), events[1..])
  }

  /** Whatever the user does, undo and redo never change the board: the
      history is never filled, so both guards stay closed. */
  lemma UndoRedoInert(events: seq<Event>)
    ensures Undo(Run(Init, events)) == Run(Init, events)
    ensures Redo(Run(Init, events)) == Run(Init, events)
    ensures ValidZoom(Run(Init, events).zoom)
  {
  }

  /** Mouse-up and mouse-leave, from any state, end drawing and dragging
      and empty the path buffer. */
  lemma MouseUpResets(b: Board, id: real)
    requires Reachable(b)
    ensures var r := Step(b, MouseUp(id));
      !r.gesture.isDrawing && !r.gesture.isDragging && r.gesture.currentPath == []
    ensures Step(b, MouseLeave(id)) == Step(b, MouseUp(id))
  {
  }

  /** Mouse moves at the given client points, all over the same canvas
      origin. */
  function Moves(clients: seq<Point>, origin: Point): (r: seq<Event>)
    ensures |r| == |clients|
    ensures forall i :: 0 <= i < |r| ==> r[i] == MouseMove(clients[i], origin)
  {
    if clients == [] then [] else [MouseMove(clients[0], origin)] + Moves(clients[1..], origin)
  }

  /** Pan-drag accumulates: during a select-tool drag, any sequence of
      moves shifts the pan by the last cursor position minus the anchor
      the drag started from, and leaves the anchor at the last position. */
  lemma {:induction false} DragPanAccumulates(b: Board, clients: seq<Point>, origin: Point)
    requires Reachable(b)
    requires b.tool == Select && b.gesture.isDragging
    requires clients != []
    ensures var r := Run(b, Moves(clients, origin));
      && r.pan == Add(b.pan, Sub(clients[|clients| - 1], b.gesture.dragStart))
      && r.gesture.dragStart == clients[|clients| - 1]
      && r.gesture.isDragging
      && r.elements == b.elements
    decreases |clients|
  {
    var es := Moves(clients, origin);
    var b1 := Step(b, MouseMove(clients[0], origin));
    DragMoveStep(b, clients[0], origin);
    assert es[0] == MouseMove(clients[0], origin);
    assert es[1..] == Moves(clients[1..], origin);
    assert Run(b, es) == Run(b1, es[1..]);
    if |clients| > 1 {
      DragPanAccumulates(b1, clients[1..], origin);
      AddSubChain(b.pan, clients[0], b.gesture.dragStart, clients[|clients| - 1]);
    } else {
      assert Run(b1, es[1..]) == b1;
    }
  }

  /** One drag move shifts the pan by the cursor's displacement and moves
      the anchor to the cursor. */
  lemma DragMoveStep(b: Board, client: Point, origin: Point)
    requires Reachable(b)
    requires b.tool == Select && b.gesture.isDragging
    ensures Step(b, MouseMove(client, origin)) ==
      b.(pan := Add(b.pan, Sub(client, b.gesture.dragStart)), gesture := b.gesture.(dragStart := client))
  {
  }

  /** Displacements telescope: (pan + (c − a)) + (d − c) = pan + (d − a). */
  lemma AddSubChain(pan: Point, c: Point, a: Point, d: Point)
    ensures Add(Add(pan, Sub(c, a)), Sub(d, c)) == Add(pan, Sub(d, a))
  {
  }

  /** The logical points the pen records for the given client points. */
  function LogicalPath(clients: seq<Point>, origin: Point, pan: Point, zoom: real): (r: seq<Point>)
    requires zoom != 0.0
    ensures |r| == |clients|
    ensures forall i :: 0 <= i < |r| ==> ToScreen(r[i], origin, pan, zoom) == clients[i]
  {
    if clients == [] then []
    else [ToLogical(clients[0], origin, pan, zoom)] + LogicalPath(clients[1..], origin, pan, zoom)
  }

  /** While drawing with the pen, each move appends exactly one point, the
      logical image of the cursor, after the points already recorded;
      nothing else on the board changes. */
  lemma {:induction false} PenMovesAppend(b: Board, clients: seq<Point>, origin: Point)
    requires Reachable(b)
    requires b.tool == Pen && b.gesture.isDrawing
    ensures var r := Run(b, Moves(clients, origin));
      r == b.(gesture := b.gesture.(currentPath :=
        b.gesture.currentPath + LogicalPath(clients, origin, b.pan, b.zoom)))
    decreases |clients|
  {
    var path := b.gesture.currentPath;
    if clients == [] {
      assert path + LogicalPath(clients, origin, b.pan, b.zoom) == path;
    } else {
      var p := ToLogical(clients[0], origin, b.pan, b.zoom);
      var rest := LogicalPath(clients[1..], origin, b.pan, b.zoom);
      var es := Moves(clients, origin);
      var b1 := Step(b, MouseMove(clients[0], origin));
      PenMoveStep(b, clients[0], origin);
      assert es[0] == MouseMove(clients[0], origin);
      assert es[1..] == Moves(clients[1..], origin);
      assert Run(b, es) == Run(b1, es[1..]);
      PenMovesAppend(b1, clients[1..], origin);
      assert b1.gesture.currentPath == path + [p];
      var whole := LogicalPath(clients, origin, b.pan, b.zoom);
      assert whole == [p] + rest;
      AppendAssoc(path, [p], rest);
      assert b1.(gesture := b1.gesture.(currentPath := path + [p] + rest))
          == b.(gesture := b.gesture.(currentPath := path + whole));
    }
  }

  lemma AppendAssoc<T>(a: seq<T>, b: seq<T>, c: seq<T>)
    ensures a + b + c == a + (b + c)
  {
  }

  /** One pen move appends one logical point and changes nothing else. */
  lemma PenMoveStep(b: Board, client: Point, origin: Point)
    requires Reachable(b)
    requires b.tool == Pen && b.gesture.isDrawing
    ensures Step(b, MouseMove(client, origin)) == b.(gesture := b.gesture.(currentPath :=
      b.gesture.currentPath + [ToLogical(client, origin, b.pan, b.zoom)]))
  {
    var out := WhiteboardCanvas.MouseMove(b.gesture, ViewOf(b), client, origin);
    assert out.created.None? && out.pan.None? && out.zoom.None?;
  }

  /** A complete pen stroke (down, moves, up) adds exactly one path element,
      whose points are the recorded ones in order, when at least one move
      happened; a bare click adds nothing. Either way the buffer ends
      empty. */
  lemma PenStroke(b: Board, down: Point, clients: seq<Point>, origin: Point, id1: real, id2: real)
    requires Reachable(b)
    requires b.tool == Pen
    ensures var r := Run(b, [MouseDown(down, origin, id1)] + Moves(clients, origin) + [MouseUp(id2)]);
      var points := LogicalPath([down] + clients, origin, b.pan, b.zoom);
      && r.gesture.currentPath == []
      && (clients == [] ==> r.elements == b.elements)
      && (clients != [] ==>
            && |r.elements| == |b.elements| + 1
            && r.elements[..|b.elements|] == b.elements
            && HasId(r.elements[|b.elements|], id2)
            && FieldIs(r.elements[|b.elements|], "type", Str("path"))
            && FieldIs(r.elements[|b.elements|], "path", Points(points)))
  {
    var p0 := ToLogical(down, origin, b.pan, b.zoom);
    var ms := Moves(clients, origin);
    var b1 := Step(b, MouseDown(down, origin, id1));
    PenDownStep(b, down, origin, id1);
    RunSplit(b, MouseDown(down, origin, id1), ms, MouseUp(id2));
    PenMovesAppend(b1, clients, origin);
    var b2 := Run(b1, ms);
    LogicalPathCons(down, clients, origin, b.pan, b.zoom);
    assert b2.gesture.currentPath == LogicalPath([down] + clients, origin, b.pan, b.zoom);
    assert b2.elements == b.elements && b2.gesture.isDrawing;
    PenUpStep(b2, id2);
  }

  /** Pen mouse-down starts drawing with the single logical point under
      the cursor and changes nothing else. */
  lemma PenDownStep(b: Board, down: Point, origin: Point, id: real)
    requires Reachable(b)
    requires b.tool == Pen
    ensures Step(b, MouseDown(down, origin, id)) == b.(gesture := b.gesture.(isDrawing := true,
      currentPath := [ToLogical(down, origin, b.pan, b.zoom)]))
  {
  }

  /** Mouse-up after drawing: a path element carrying the buffer is
      appended when it holds more than one point. */
  lemma PenUpStep(b: Board, id: real)
    requires Reachable(b)
    requires b.gesture.isDrawing
    ensures var r := Step(b, MouseUp(id));
      && r.gesture.currentPath == []
      && (|b.gesture.currentPath| <= 1 ==> r.elements == b.elements)
      && (|b.gesture.currentPath| > 1 ==>
            && |r.elements| == |b.elements| + 1
            && r.elements[..|b.elements|] == b.elements
            && HasId(r.elements[|b.elements|], id)
            && FieldIs(r.elements[|b.elements|], "type", Str("path"))
            && FieldIs(r.elements[|b.elements|], "path", Points(b.gesture.currentPath)))
  {
  }

  lemma LogicalPathCons(c: Point, cs: seq<Point>, origin: Point, pan: Point, zoom: real)
    requires zoom != 0.0
    ensures LogicalPath([c] + cs, origin, pan, zoom) == [ToLogical(c, origin, pan, zoom)] + LogicalPath(cs, origin, pan, zoom)
  {
    assert ([c] + cs)[1..] == cs;
  }

  /** A run of one event, a block, and one more event. */
  lemma RunSplit(b: Board, first: Event, mid: seq<Event>, last: Event)
    requires Reachable(b)
    ensures Reachable(Step(b, first))
    ensures Run(b, [first] + mid + [last]) == Step(Run(Step(b, first), mid), last)
  {
    StepPreservesReachable(b, first);
    var b1 := Step(b, first);
    assert [first] + mid + [last] == [first] + (mid + [last]);
    RunAppend(b, [first], mid + [last]);
    assert Run(b, [first]) == Run(b1, []);
    RunAppend(b1, mid, [last]);
    var b2 := Run(b1, mid);
    StepPreservesReachable(b2, last);
    assert Run(b2, [last]) == Run(Step(b2, last), []);
  }

  /** Running two event sequences one after the other. */
  lemma {:induction false} RunAppend(b: Board, xs: seq<Event>, ys: seq<Event>)
    requires Reachable(b)
    ensures Run(b, xs + ys) == Run(Run(b, xs), ys)
    decreases |xs|
  {
    if xs == [] {
      assert xs + ys == ys;
    } else {
      assert (xs + ys)[0] == xs[0];
      assert (xs + ys)[1..] == xs[1..] + ys;
      StepPreservesReachable(b, xs[0]);
      RunAppend(Step(b, xs[0]), xs[1..], ys);
    }
  }
}
