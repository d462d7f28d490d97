/** The canvas component (components/Canvas.tsx): the pure helpers it renders
    with, and its tool-mode state machine as a controller over the board
    store and the log of remote writes. */
module Canvas {
  import opened Types
  import opened SeqOps
  import opened Text
  import opened Store
  import opened Remote
  import ContextMenu
  import ConnectionView

  // ------------------------------------------------------------ geometry

  /** The element a mouse event hit. */
  datatype Target = Target(isCanvasRoot: bool, classes: seq<string>, tagName: string)

  /** A hit on the canvas element itself, the transformed content layer or the ink layer. */
  predicate IsBackground(t: Target) {
    t.isCanvasRoot || "canvas-content" in t.classes || t.tagName == "svg"
  }

  /** The client point, taken relative to the canvas element's origin `rect`,
      in canvas space: exactly the canvas point drawn under the pointer. */
  function ClientToCanvas(clientX: real, clientY: real, rect: Point, v: Viewport): (p: Point)
    requires v.zoom != 0.0
    ensures ToScreen(p, v) == Point(clientX - rect.x, clientY - rect.y)
  {
    ScreenCanvasRoundTrip(Point(clientX - rect.x, clientY - rect.y), Point(0.0, 0.0), v);
    ToCanvas(Point(clientX - rect.x, clientY - rect.y), v)
  }

  /** Position of a note after a drag by a screen delta. */
  function DraggedTo(n: Note, dx: real, dy: real, zoom: real): Point
    requires zoom != 0.0
  {
    Point(n.x + dx / zoom, n.y + dy / zoom)
  }

  /** Dividing the delta by the zoom makes the note move on screen by exactly the pointer's delta. */
  lemma DragFollowsPointer(n: Note, dx: real, dy: real, v: Viewport)
    requires v.zoom != 0.0
    ensures var before := ToScreen(Point(n.x, n.y), v);
      ToScreen(DraggedTo(n, dx, dy, v.zoom), v) == Point(before.x + dx, before.y + dy)
  {
    var q := DraggedTo(n, dx, dy, v.zoom);
    ShiftScaled(v.x, n.x, dx, v.zoom);
    ShiftScaled(v.y, n.y, dy, v.zoom);
    assert ToScreen(q, v).x == ToScreen(Point(n.x, n.y), v).x + dx;
    assert ToScreen(q, v).y == ToScreen(Point(n.x, n.y), v).y + dy;
  }

  /** One axis of DragFollowsPointer. */
  lemma ShiftScaled(off: real, a: real, d: real, z: real)
    requires z != 0.0
    ensures off + (a + d / z) * z == (off + a * z) + d
  {
    DivMulCancel(d, z);
    assert (a + d / z) * z == a * z + (d / z) * z;
  }

  /** The wheel handler's zoom step. */
  function WheelDelta(deltaY: real): real {
    -deltaY * 0.001
  }

  /** Scrolling down never zooms in, scrolling up never zooms out. */
  lemma WheelDirection(v: Viewport, deltaY: real, cx: real, cy: real)
    requires MinZoom <= v.zoom <= MaxZoom
    ensures deltaY >= 0.0 ==> ZoomAbout(v, WheelDelta(deltaY), cx, cy).zoom <= v.zoom
    ensures deltaY <= 0.0 ==> ZoomAbout(v, WheelDelta(deltaY), cx, cy).zoom >= v.zoom
  {
  }

  /** The viewport after a pan gesture that started at `last` and saw the
      document mouse moves `moves`, each panning by the step since the previous one. */
  function PanTrail(v: Viewport, last: Point, moves: seq<Point>): Viewport
    decreases |moves|
  {
    if |moves| == 0 then v
    else PanTrail(Pan(v, moves[0].x - last.x, moves[0].y - last.y), moves[0], moves[1..])
  }

  /** The per-move steps add up: the whole gesture pans by the last pointer
      position minus the first. */
  lemma {:induction false} PanTrailTelescopes(v: Viewport, start: Point, moves: seq<Point>)
    requires |moves| > 0
    ensures PanTrail(v, start, moves)
            == Pan(v, moves[|moves| - 1].x - start.x, moves[|moves| - 1].y - start.y)
    decreases |moves|
  {
    if |moves| > 1 {
      var v' := Pan(v, moves[0].x - start.x, moves[0].y - start.y);
      PanTrailTelescopes(v', moves[0], moves[1..]);
      assert moves[1..][|moves[1..]| - 1] == moves[|moves| - 1];
    }
  }

  // --------------------------------------------------------- rendering

  function UniqueNotes(ns: seq<Note>): seq<Note> { FirstOccurrences(ns, NoteId) }
  function UniqueConnections(cs: seq<Connection>): seq<Connection> { FirstOccurrences(cs, ConnectionId) }
  function UniqueStrokes(ss: seq<Stroke>): seq<Stroke> { FirstOccurrences(ss, StrokeId) }

  /** Before rendering, notes are reduced to one per id: no id repeats, no
      id is lost, order is kept, and each survivor is the note `find` returns. */
  lemma UniqueNotesSpec(ns: seq<Note>)
    ensures NoDuplicateKeys(UniqueNotes(ns), NoteId)
    ensures KeysOf(UniqueNotes(ns), NoteId) == KeysOf(ns, NoteId)
    ensures IsSubseq(UniqueNotes(ns), ns)
    ensures forall n :: n in UniqueNotes(ns) ==> Find(ns, NoteId, n.id) == Some(n)
    ensures UniqueNotes(UniqueNotes(ns)) == UniqueNotes(ns)
  {
    FirstOccurrencesSpec(ns, NoteId);
    FirstOccurrencesKeepsFirst(ns, NoteId);
    FirstOccurrencesIdempotent(ns, NoteId);
  }

  lemma UniqueConnectionsSpec(cs: seq<Connection>)
    ensures NoDuplicateKeys(UniqueConnections(cs), ConnectionId)
    ensures KeysOf(UniqueConnections(cs), ConnectionId) == KeysOf(cs, ConnectionId)
    ensures IsSubseq(UniqueConnections(cs), cs)
    ensures forall c :: c in UniqueConnections(cs) ==> Find(cs, ConnectionId, c.id) == Some(c)
    ensures UniqueConnections(UniqueConnections(cs)) == UniqueConnections(cs)
  {
    FirstOccurrencesSpec(cs, ConnectionId);
    FirstOccurrencesKeepsFirst(cs, ConnectionId);
    FirstOccurrencesIdempotent(cs, ConnectionId);
  }

  /** Among the connectors actually drawn (one per id), selecting the id
      `id` highlights at most one, and one exactly when some connection has
      that id. */
  lemma RenderedHighlight(cs: seq<Connection>, id: string)
    ensures var r := UniqueConnections(cs);
      forall i, j ::
        (0 <= i < |r| && 0 <= j < |r| &&
         ConnectionView.IsSelected(r[i], Some(id)) && ConnectionView.IsSelected(r[j], Some(id))) ==> i == j
    ensures var r := UniqueConnections(cs);
      (exists i :: 0 <= i < |r| && ConnectionView.IsSelected(r[i], Some(id))) <==> id in KeysOf(cs, ConnectionId)
  {
    var r := UniqueConnections(cs);
    UniqueConnectionsSpec(cs);
    KeysOfMember(r, ConnectionId, id);
    assert forall i :: 0 <= i < |r| ==> (ConnectionView.IsSelected(r[i], Some(id)) <==> ConnectionId(r[i]) == id);
  }

  lemma UniqueStrokesSpec(ss: seq<Stroke>)
    ensures NoDuplicateKeys(UniqueStrokes(ss), StrokeId)
    ensures KeysOf(UniqueStrokes(ss), StrokeId) == KeysOf(ss, StrokeId)
    ensures IsSubseq(UniqueStrokes(ss), ss)
    ensures forall s :: s in UniqueStrokes(ss) ==> Find(ss, StrokeId, s.id) == Some(s)
    ensures UniqueStrokes(UniqueStrokes(ss)) == UniqueStrokes(ss)
  {
    FirstOccurrencesSpec(ss, StrokeId);
    FirstOccurrencesKeepsFirst(ss, StrokeId);
    FirstOccurrencesIdempotent(ss, StrokeId);
  }

  /** `L x y` for one point; `num` is the number formatting of a template literal. */
  function LineTo(p: Point, num: real -> string): string {
    "L " + num(p.x) + " " + num(p.y)
  }

  function LineTos(ps: seq<Point>, num: real -> string): (r: seq<string>)
    ensures |r| == |ps| && forall i :: 0 <= i < |ps| ==> r[i] == LineTo(ps[i], num)
  {
    if |ps| == 0 then [] else [LineTo(ps[0], num)] + LineTos(ps[1..], num)
  }

  /** pointsToPath: "" for no points, otherwise a move to the first point
      followed by one line segment per later point. */
  function PointsToPath(ps: seq<Point>, num: real -> string): (r: string)
    ensures r == "" <==> |ps| == 0
    ensures |ps| > 0 ==> StartsWith(r, "M " + num(ps[0].x) + " " + num(ps[0].y) + " ")
    ensures |ps| == 1 ==> r == MoveTo(ps[0], num)
  {
    if |ps| == 0 then ""
    else
      var head := MoveTo(ps[0], num);
      assert (head + Join(" ", LineTos(ps[1..], num)))[..|head|] == head;
      head + Join(" ", LineTos(ps[1..], num))
  }

  /** `M x y ` for the first point. */
  function MoveTo(p: Point, num: real -> string): string {
    "M " + num(p.x) + " " + num(p.y) + " "
  }

  /** Each further point adds exactly one segment at the end; the first
      segment needs no separator, as the move command already ends in a space. */
  lemma PointsToPathAppend(ps: seq<Point>, p: Point, num: real -> string)
    requires |ps| > 0
    ensures PointsToPath(ps + [p], num)
            == PointsToPath(ps, num) + (if |ps| == 1 then "" else " ") + LineTo(p, num)
  {
    var tail := ps[1..];
    assert (ps + [p])[0] == ps[0];
    assert (ps + [p])[1..] == tail + [p];
    JoinLineTos(tail, p, num);
  }

  /** The segment list of one more point joins to one more segment. */
  lemma JoinLineTos(tail: seq<Point>, p: Point, num: real -> string)
    ensures Join(" ", LineTos(tail + [p], num))
            == Join(" ", LineTos(tail, num)) + (if |tail| == 0 then "" else " ") + LineTo(p, num)
  {
    LineTosAppend(tail, p, num);
    if |tail| == 0 {
      assert LineTos(tail, num) + [LineTo(p, num)] == [LineTo(p, num)];
    } else {
      JoinAppend(" ", LineTos(tail, num), LineTo(p, num));
    }
  }

  lemma LineTosAppend(ps: seq<Point>, p: Point, num: real -> string)
    ensures LineTos(ps + [p], num) == LineTos(ps, num) + [LineTo(p, num)]
  {
    var l, r := LineTos(ps + [p], num), LineTos(ps, num) + [LineTo(p, num)];
    assert |l| == |r|;
    forall i | 0 <= i < |l| ensures l[i] == r[i] {
      if i < |ps| {
        assert (ps + [p])[i] == ps[i];
      }
    }
  }

  /** getCursor. */
  function GetCursor(tool: Tool, isPanning: bool, isMouseDown: bool): (r: string)
    ensures r == "grabbing" <==> tool == SelectTool && isPanning
    ensures r == "grab" <==> tool == SelectTool && !isPanning && isMouseDown
    ensures r == "crosshair" <==> tool == PenTool
    ensures r in {"grabbing", "grab", "crosshair", "default"}
  {
    if tool == SelectTool then
      (if isPanning then "grabbing" else if isMouseDown then "grab" else "default")
    else if tool == PenTool then "crosshair"
    else "default"
  }

  // ------------------------------------------------------- object creation

  /** The fixed content, size and colour createObject gives each object type. */
  datatype Defaults = Defaults(content: string, width: real, height: real, color: string)

  function ObjectDefaults(kind: string): (r: Option<Defaults>)
    ensures r.Some? <==> kind == "note" || kind == "text"
    ensures kind == "note" ==> r == Some(Defaults("New note", 200.0, 150.0, "#fef3c7"))
    ensures kind == "text" ==> r == Some(Defaults("Text", 200.0, 50.0, "transparent"))
  {
    if kind == "note" then Some(Defaults("New note", 200.0, 150.0, "#fef3c7"))
    else if kind == "text" then Some(Defaults("Text", 200.0, 50.0, "transparent"))
    else None
  }

  /** The insert createObject sends, if the type is one it knows. */
  function CreateObjectWrite(boardId: string, kind: string, x: real, y: real): (w: Option<Write>)
    ensures w.Some? <==> ObjectDefaults(kind).Some?
    ensures w.Some? ==> w.value.InsertObject? && w.value.kind == kind && w.value.board_id == boardId
                        && w.value.x == x && w.value.y == y
                        && w.value.content == ObjectDefaults(kind).value.content
                        && w.value.width == ObjectDefaults(kind).value.width
                        && w.value.height == ObjectDefaults(kind).value.height
                        && w.value.color == ObjectDefaults(kind).value.color
  {
    match ObjectDefaults(kind)
    case None => None
    case Some(d) => Some(InsertObject(boardId, kind, d.content, x, y, d.width, d.height, d.color))
  }

  datatype Box = Box(x: real, y: real, width: real, height: real)

  /** The box a text drag from a to b creates: only when it is wider and
      taller than 20, placed at the top-left corner of the dragged rectangle. */
  function TextBox(a: Point, b: Point): (r: Option<Box>)
    ensures r.Some? <==> Abs(b.x - a.x) > 20.0 && Abs(b.y - a.y) > 20.0
    ensures r.Some? ==> r.value.width > 20.0 && r.value.height > 20.0
  {
    var width := Abs(b.x - a.x);
    var height := Abs(b.y - a.y);
    if width > 20.0 && height > 20.0 then Some(Box(Min(a.x, b.x), Min(a.y, b.y), width, height))
    else None
  }

  /** The created box spans exactly the dragged rectangle, whichever way it was dragged. */
  lemma TextBoxSpansDrag(a: Point, b: Point)
    ensures TextBox(a, b) == TextBox(b, a)
    ensures TextBox(a, b).Some? ==>
      var r := TextBox(a, b).value;
      && r.x == Min(a.x, b.x) && r.x + r.width == Max(a.x, b.x)
      && r.y == Min(a.y, b.y) && r.y + r.height == Max(a.y, b.y)
  {
  }

  /** The insert a finished text drag sends, if any. */
  function TextDragWrite(boardId: string, dragging: bool, start: Option<Point>, end: Option<Point>): (w: Option<Write>)
    ensures w.Some? <==> dragging && start.Some? && end.Some? && TextBox(start.value, end.value).Some?
    ensures w.Some? ==>
      var b := TextBox(start.value, end.value).value;
      w.value == InsertObject(boardId, "text", "Text", b.x, b.y, b.width, b.height, "transparent")
  {
    if dragging && start.Some? && end.Some? then
      match TextBox(start.value, end.value)
      case None => None
      case Some(b) => Some(InsertObject(boardId, "text", "Text", b.x, b.y, b.width, b.height, "transparent"))
    else None
  }

  const PenColor := "#3b82f6"
  const PenWidth := 2.0
  const PenAuthor := "user"

  /** The insert a finished pen gesture sends: only with at least two points,
      in the fixed pen colour and width whatever the store's stroke settings. */
  function PenStrokeWrite(boardId: string, drawing: bool, points: seq<Point>): (w: Option<Write>)
    ensures w.Some? <==> drawing && |points| >= 2
    ensures w.Some? ==> w.value == InsertStroke(boardId, PenAuthor, PenColor, PenWidth, points)
  {
    if drawing && |points| >= 2 then Some(InsertStroke(boardId, PenAuthor, PenColor, PenWidth, points)) else None
  }

  /** After an object insert w (if any) and the database's reply: a returned
      row is appended to the notes and the tool returns to select; otherwise
      notes and tool are as they were. */
  twostate predicate NoteCreated(s: BoardStore, w: Option<Write>, newId: Option<string>)
    requires w.Some? ==> w.value.InsertObject?
    reads s
  {
    var made := w.Some? && newId.Some?;
    && s.notes == old(s.notes) + (if made then [InsertedNote(w.value, newId.value)] else [])
    && s.selectedTool == (if made then SelectTool else old(s.selectedTool))
  }

  /** After a stroke insert w (if any): a returned row is appended to the strokes. */
  twostate predicate StrokeCreated(s: BoardStore, w: Option<Write>, newId: Option<string>)
    requires w.Some? ==> w.value.InsertStroke?
    reads s
  {
    s.strokes == old(s.strokes)
                 + (if w.Some? && newId.Some? then [InsertedStroke(w.value, newId.value)] else [])
  }

  /** deleteItem's routing: a stroke id deletes the stroke (remote first),
      any other id deletes the note; the selection is cleared either way. */
  twostate predicate ItemDeleted(s: BoardStore, l: WriteLog, id: string)
    reads s, l
  {
    && s.selectedItemId == None
    && if HasKey(old(s.strokes), StrokeId, id) then
         && s.strokes == DeleteStrokes(old(s.strokes), id)
         && s.OnlyChanged({StrokesF, SelectedItemF})
         && l.writes == old(l.writes) + [DeleteStroke(id)]
       else
         && s.notes == DeleteNotes(old(s.notes), id)
         && s.OnlyChanged({NotesF, SelectedItemF})
         && l.writes == old(l.writes) + [DeleteObject(id)]
  }

  // -------------------------------------------------------- controller

  datatype MenuAnchor = MenuAnchor(x: real, y: real, itemId: string)

  /** The component's own state, named so that a handler can say which parts it changes. */
  datatype Local = PanningL | MouseDownL | PanLastL | DraggingTextL | TextStartL | TextEndL
                 | DrawingL | CurrentStrokeL | MenuL

  class CanvasController {
    const store: BoardStore
    const log: WriteLog
    const boardId: string
    var isPanning: bool
    var isMouseDown: bool
    /** lastX/lastY of the document listeners a pan registers; None once they are removed. */
    var panLast: Option<Point>
    var isDraggingText: bool
    var textDragStart: Option<Point>
    var textDragEnd: Option<Point>
    var isDrawing: bool
    var currentStroke: seq<Point>
    var contextMenu: Option<MenuAnchor>

    ghost predicate Valid()
      reads this, store
    {
      store.Valid()
    }

    twostate predicate OnlyLocal(fs: set<Local>)
      reads this
    {
      && (PanningL !in fs ==> isPanning == old(isPanning))
      && (MouseDownL !in fs ==> isMouseDown == old(isMouseDown))
      && (PanLastL !in fs ==> panLast == old(panLast))
      && (DraggingTextL !in fs ==> isDraggingText == old(isDraggingText))
      && (TextStartL !in fs ==> textDragStart == old(textDragStart))
      && (TextEndL !in fs ==> textDragEnd == old(textDragEnd))
      && (DrawingL !in fs ==> isDrawing == old(isDrawing))
      && (CurrentStrokeL !in fs ==> currentStroke == old(currentStroke))
      && (MenuL !in fs ==> contextMenu == old(contextMenu))
    }

    constructor (store: BoardStore, log: WriteLog, boardId: string)
      ensures this.store == store && this.log == log && this.boardId == boardId
      ensures !isPanning && !isMouseDown && panLast == None
      ensures !isDraggingText && textDragStart == None && textDragEnd == None
      ensures !isDrawing && currentStroke == [] && contextMenu == None
    {
      this.store := store;
      this.log := log;
      this.boardId := boardId;
      isPanning, isMouseDown, panLast := false, false, None;
      isDraggingText, textDragStart, textDragEnd := false, None, None;
      isDrawing, currentStroke, contextMenu := false, [], None;
    }

    /** Text-drag state that a release will act on. */
    predicate TextDragActive()
      reads this
    {
      isDraggingText && textDragStart.Some? && textDragEnd.Some?
    }

    /** handleDragEnd: an unknown note is left alone; otherwise the note
        moves by the screen delta divided by the zoom, locally and remotely. */
    method HandleDragEnd(noteId: string, dx: real, dy: real)
      requires Valid()
      modifies store, log
      ensures Valid()
      ensures Find(old(store.notes), NoteId, noteId).None? ==> unchanged(store) && unchanged(log)
      ensures Find(old(store.notes), NoteId, noteId).Some? ==>
        var p := DraggedTo(Find(old(store.notes), NoteId, noteId).value, dx, dy, old(store.viewport.zoom));
        && store.notes == UpdateNotes(old(store.notes), noteId, PositionPatch(p.x, p.y))
        && store.OnlyChanged({NotesF})
        && log.writes == old(log.writes) + [UpdateObject(noteId, PositionPatch(p.x, p.y))]
    {
      var found := Find(store.notes, NoteId, noteId);
      if found.None? {
        return;
      }
      var p := DraggedTo(found.value, dx, dy, store.viewport.zoom);
      store.UpdateNote(noteId, PositionPatch(p.x, p.y));
      log.Send(UpdateObject(noteId, PositionPatch(p.x, p.y)));
    }

    /** deleteItem. A connector id is routed to the notes, so a selected
        connector is never removed from the connections. */
    method DeleteItem(id: string)
      modifies store, log
      ensures ItemDeleted(store, log, id)
      ensures store.connections == old(store.connections)
    {
      if HasKey(store.strokes, StrokeId, id) {
        log.Send(DeleteStroke(id));
        store.DeleteStroke(id);
        store.SetSelectedItemId(None);
        return;
      }
      log.Send(DeleteObject(id));
      store.DeleteNote(id);
      store.SetSelectedItemId(None);
    }

    /** The window keydown handler: Delete acts on the selected item, if one is selected. */
    method KeyDown(key: string)
      modifies store, log
      ensures key == "Delete" && Truthy(old(store.selectedItemId)) ==>
                ItemDeleted(store, log, old(store.selectedItemId).value)
      ensures !(key == "Delete" && Truthy(old(store.selectedItemId))) ==> unchanged(store) && unchanged(log)
    {
      if key == "Delete" && Truthy(store.selectedItemId) {
        DeleteItem(store.selectedItemId.value);
      }
    }

    /** createObject; `newId` is the id of the row the insert returned, if any. */
    method CreateObject(x: real, y: real, kind: string, newId: Option<string>)
      modifies store, log
      ensures log.writes == old(log.writes) + Writes(CreateObjectWrite(boardId, kind, x, y))
      ensures NoteCreated(store, CreateObjectWrite(boardId, kind, x, y), newId)
      ensures store.OnlyChanged({NotesF, ToolF})
    {
      var w := CreateObjectWrite(boardId, kind, x, y);
      if w.None? {
        return;
      }
      log.Send(w.value);
      if newId.Some? {
        store.AddNote(InsertedNote(w.value, newId.value));
        store.SetSelectedTool(SelectTool);
      }
    }

    /** handleCanvasClick: closes the context menu; in select mode a
        background click clears the selection; in note mode it places a note
        at the clicked canvas point. */
    method HandleCanvasClick(target: Target, clientX: real, clientY: real, rect: Option<Point>,
                             newId: Option<string>)
      requires Valid()
      modifies this, store, log
      ensures Valid()
      ensures contextMenu == None && OnlyLocal({MenuL})
      ensures var w := if old(store.selectedTool) == NoteTool && IsBackground(target) && rect.Some?
                       then CreateObjectWrite(boardId, "note", ClientToCanvas(clientX, clientY, rect.value, old(store.viewport)).x,
                                              ClientToCanvas(clientX, clientY, rect.value, old(store.viewport)).y)
                       else None;
        && log.writes == old(log.writes) + Writes(w)
        && NoteCreated(store, w, newId)
      ensures old(store.selectedTool) == SelectTool && IsBackground(target) ==> store.selectedItemId == None
      ensures !(old(store.selectedTool) == SelectTool && IsBackground(target)) ==>
                store.selectedItemId == old(store.selectedItemId)
      ensures store.OnlyChanged({NotesF, ToolF, SelectedItemF})
    {
      contextMenu := None;
      var background := IsBackground(target);
      if store.selectedTool == SelectTool && background {
        store.SetSelectedItemId(None);
        return;
      }
      if store.selectedTool == SelectTool || !background || rect.None? {
        return;
      }
      var p := ClientToCanvas(clientX, clientY, rect.value, store.viewport);
      if store.selectedTool == NoteTool {
        CreateObject(p.x, p.y, "note", newId);
      }
    }

    /** handleTextDragStart. */
    method TextDragStart(target: Target, clientX: real, clientY: real, rect: Option<Point>)
      requires Valid()
      modifies this
      ensures store.selectedTool == TextTool && IsBackground(target) && rect.Some? ==>
        var p := ClientToCanvas(clientX, clientY, rect.value, store.viewport);
        isDraggingText && textDragStart == Some(p) && textDragEnd == Some(p)
      ensures !(store.selectedTool == TextTool && IsBackground(target) && rect.Some?) ==> OnlyLocal({})
      ensures OnlyLocal({DraggingTextL, TextStartL, TextEndL})
    {
      if store.selectedTool != TextTool || !IsBackground(target) || rect.None? {
        return;
      }
      var p := ClientToCanvas(clientX, clientY, rect.value, store.viewport);
      isDraggingText := true;
      textDragStart := Some(p);
      textDragEnd := Some(p);
    }

    /** handleTextDragMove: the far corner follows the pointer. */
    method TextDragMove(clientX: real, clientY: real, rect: Option<Point>)
      requires Valid()
      modifies this
      ensures textDragEnd == if old(isDraggingText) && old(textDragStart).Some? && rect.Some?
                             then Some(ClientToCanvas(clientX, clientY, rect.value, store.viewport))
                             else old(textDragEnd)
      ensures OnlyLocal({TextEndL})
    {
      if !isDraggingText || textDragStart.None? || rect.None? {
        return;
      }
      textDragEnd := Some(ClientToCanvas(clientX, clientY, rect.value, store.viewport));
    }

    /** handleTextDragEnd: creates the text box if the drag was large enough,
        and resets the drag state whenever a drag was in progress. */
    method TextDragEnd(newId: Option<string>)
      modifies this, store, log
      ensures log.writes == old(log.writes) + Writes(TextDragWrite(boardId, old(isDraggingText), old(textDragStart), old(textDragEnd)))
      ensures NoteCreated(store, TextDragWrite(boardId, old(isDraggingText), old(textDragStart), old(textDragEnd)), newId)
      ensures store.OnlyChanged({NotesF, ToolF})
      ensures old(TextDragActive()) ==> !isDraggingText && textDragStart == None && textDragEnd == None
      ensures !old(TextDragActive()) ==> OnlyLocal({})
      ensures OnlyLocal({DraggingTextL, TextStartL, TextEndL})
    {
      if !TextDragActive() {
        return;
      }
      var w := TextDragWrite(boardId, isDraggingText, textDragStart, textDragEnd);
      if w.Some? {
        log.Send(w.value);
        if newId.Some? {
          store.AddNote(InsertedNote(w.value, newId.value));
          store.SetSelectedTool(SelectTool);
        }
      }
      isDraggingText := false;
      textDragStart := None;
      textDragEnd := None;
    }

    /** handlePenDrawStart: a stroke begins with the pressed point. */
    method PenDrawStart(clientX: real, clientY: real, rect: Option<Point>)
      requires Valid()
      modifies this
      ensures store.selectedTool == PenTool && rect.Some? ==>
        isDrawing && currentStroke == [ClientToCanvas(clientX, clientY, rect.value, store.viewport)]
      ensures !(store.selectedTool == PenTool && rect.Some?) ==> OnlyLocal({})
      ensures OnlyLocal({DrawingL, CurrentStrokeL})
    {
      if store.selectedTool != PenTool || rect.None? {
        return;
      }
      isDrawing := true;
      currentStroke := [ClientToCanvas(clientX, clientY, rect.value, store.viewport)];
    }

    /** handlePenDrawMove: each move while drawing appends one point. */
    method PenDrawMove(clientX: real, clientY: real, rect: Option<Point>)
      requires Valid()
      modifies this
      ensures currentStroke == if old(isDrawing) && store.selectedTool == PenTool && rect.Some?
                               then Append(old(currentStroke), ClientToCanvas(clientX, clientY, rect.value, store.viewport))
                               else old(currentStroke)
      ensures OnlyLocal({CurrentStrokeL})
    {
      if !isDrawing || store.selectedTool != PenTool || rect.None? {
        return;
      }
      currentStroke := currentStroke + [ClientToCanvas(clientX, clientY, rect.value, store.viewport)];
    }

    /** handlePenDrawEnd: saves the stroke if it has two points or more; the
        pen state is reset in every case. */
    method PenDrawEnd(newId: Option<string>)
      modifies this, store, log
      ensures log.writes == old(log.writes) + Writes(PenStrokeWrite(boardId, old(isDrawing), old(currentStroke)))
      ensures StrokeCreated(store, PenStrokeWrite(boardId, old(isDrawing), old(currentStroke)), newId)
      ensures store.OnlyChanged({StrokesF})
      ensures !isDrawing && currentStroke == []
      ensures OnlyLocal({DrawingL, CurrentStrokeL})
    {
      var w := PenStrokeWrite(boardId, isDrawing, currentStroke);
      if w.Some? {
        log.Send(w.value);
        if newId.Some? {
          store.AddStroke(InsertedStroke(w.value, newId.value));
        }
      }
      isDrawing := false;
      currentStroke := [];
    }

    /** handleCanvasMouseDown: a press on the background in select mode
        starts a pan and registers the document listeners at the pressed point. */
    method PanStart(target: Target, clientX: real, clientY: real)
      modifies this
      ensures IsBackground(target) && store.selectedTool == SelectTool ==>
                isPanning && panLast == Some(Point(clientX, clientY))
      ensures !(IsBackground(target) && store.selectedTool == SelectTool) ==> OnlyLocal({})
      ensures OnlyLocal({PanningL, PanLastL})
    {
      if !IsBackground(target) || store.selectedTool != SelectTool {
        return;
      }
      isPanning := true;
      panLast := Some(Point(clientX, clientY));
    }

    /** The pan's document mousemove listener: pans by the step since the
        previous event, then remembers this event's position. */
    method PanMove(clientX: real, clientY: real)
      modifies this, store
      ensures old(panLast).Some? ==>
        && store.viewport == Pan(old(store.viewport), clientX - old(panLast).value.x, clientY - old(panLast).value.y)
        && panLast == Some(Point(clientX, clientY))
      ensures old(panLast).None? ==> unchanged(store) && OnlyLocal({})
      ensures store.OnlyChanged({ViewportF}) && OnlyLocal({PanLastL})
      ensures old(store.Valid()) ==> store.Valid()
    {
      if panLast.None? {
        return;
      }
      store.PanViewport(clientX - panLast.value.x, clientY - panLast.value.y);
      panLast := Some(Point(clientX, clientY));
    }

    /** The pan's document mouseup listener: ends the pan and removes both listeners. */
    method PanRelease()
      modifies this
      ensures !isPanning && panLast == None
      ensures OnlyLocal({PanningL, PanLastL})
    {
      isPanning := false;
      panLast := None;
    }

    /** The wheel listener: zooms about the pointer, relative to the canvas origin. */
    method Wheel(clientX: real, clientY: real, rect: Point, deltaY: real)
      requires Valid()
      modifies store
      ensures Valid()
      ensures store.viewport == ZoomAbout(old(store.viewport), WheelDelta(deltaY), clientX - rect.x, clientY - rect.y)
      ensures store.OnlyChanged({ViewportF})
    {
      store.ZoomViewport(WheelDelta(deltaY), clientX - rect.x, clientY - rect.y);
    }

    /** The zoom-in button: the centre defaults to the origin. */
    method ZoomIn()
      requires Valid()
      modifies store
      ensures Valid()
      ensures store.viewport == ZoomAbout(old(store.viewport), 0.1, 0.0, 0.0) && store.OnlyChanged({ViewportF})
    {
      store.ZoomViewport(0.1, 0.0, 0.0);
    }

    method ZoomOut()
      requires Valid()
      modifies store
      ensures Valid()
      ensures store.viewport == ZoomAbout(old(store.viewport), -0.1, 0.0, 0.0) && store.OnlyChanged({ViewportF})
    {
      store.ZoomViewport(-0.1, 0.0, 0.0);
    }

    method ResetView()
      modifies store
      ensures Valid()
      ensures store.viewport == Viewport(0.0, 0.0, 1.0) && store.OnlyChanged({ViewportF})
    {
      store.SetViewport(Viewport(0.0, 0.0, 1.0));
    }

    /** The canvas's mousedown: the text or pen tool starts its gesture; in
        select mode a background press marks the mouse down and starts a pan. */
    method MouseDown(target: Target, clientX: real, clientY: real, rect: Option<Point>)
      requires Valid()
      modifies this
      ensures store.selectedTool == TextTool && IsBackground(target) && rect.Some? ==>
        var p := ClientToCanvas(clientX, clientY, rect.value, store.viewport);
        isDraggingText && textDragStart == Some(p) && textDragEnd == Some(p)
      ensures store.selectedTool == PenTool && rect.Some? ==>
        isDrawing && currentStroke == [ClientToCanvas(clientX, clientY, rect.value, store.viewport)]
      ensures store.selectedTool == SelectTool && IsBackground(target) ==>
        isMouseDown && isPanning && panLast == Some(Point(clientX, clientY))
      ensures (&& !(store.selectedTool == TextTool && IsBackground(target) && rect.Some?)
               && !(store.selectedTool == PenTool && rect.Some?)
               && !(store.selectedTool == SelectTool && IsBackground(target))) ==> OnlyLocal({})
      ensures store.selectedTool == TextTool ==> OnlyLocal({DraggingTextL, TextStartL, TextEndL})
      ensures store.selectedTool == PenTool ==> OnlyLocal({DrawingL, CurrentStrokeL})
      ensures OnlyLocal({DraggingTextL, TextStartL, TextEndL, DrawingL, CurrentStrokeL,
                         MouseDownL, PanningL, PanLastL})
    {
      if store.selectedTool == TextTool {
        TextDragStart(target, clientX, clientY, rect);
      } else if store.selectedTool == PenTool {
        PenDrawStart(clientX, clientY, rect);
      } else if store.selectedTool == SelectTool && IsBackground(target) {
        isMouseDown := true;
      }
      PanStart(target, clientX, clientY);
    }

    /** The canvas's mousemove: moves both the text drag and the pen. */
    method MouseMove(clientX: real, clientY: real, rect: Option<Point>)
      requires Valid()
      modifies this
      ensures textDragEnd == if old(isDraggingText) && old(textDragStart).Some? && rect.Some?
                             then Some(ClientToCanvas(clientX, clientY, rect.value, store.viewport))
                             else old(textDragEnd)
      ensures currentStroke == if old(isDrawing) && store.selectedTool == PenTool && rect.Some?
                               then Append(old(currentStroke), ClientToCanvas(clientX, clientY, rect.value, store.viewport))
                               else old(currentStroke)
      ensures OnlyLocal({TextEndL, CurrentStrokeL})
    {
      TextDragMove(clientX, clientY, rect);
      PenDrawMove(clientX, clientY, rect);
    }

    /** The canvas's mouseup (and, identically, mouseleave): finishes the text
        drag, then the pen stroke, and clears the press and pan flags. The
        document listeners of a pan stay registered until the document mouseup. */
    method MouseUp(textNewId: Option<string>, strokeNewId: Option<string>)
      modifies this, store, log
      ensures log.writes == old(log.writes)
                            + Writes(TextDragWrite(boardId, old(isDraggingText), old(textDragStart), old(textDragEnd)))
                            + Writes(PenStrokeWrite(boardId, old(isDrawing), old(currentStroke)))
      ensures NoteCreated(store, TextDragWrite(boardId, old(isDraggingText), old(textDragStart), old(textDragEnd)), textNewId)
      ensures StrokeCreated(store, PenStrokeWrite(boardId, old(isDrawing), old(currentStroke)), strokeNewId)
      ensures store.OnlyChanged({NotesF, ToolF, StrokesF})
      ensures old(TextDragActive()) ==> !isDraggingText && textDragStart == None && textDragEnd == None
      ensures !old(TextDragActive()) ==>
        isDraggingText == old(isDraggingText) && textDragStart == old(textDragStart) && textDragEnd == old(textDragEnd)
      ensures !isDrawing && currentStroke == [] && !isMouseDown && !isPanning
      ensures OnlyLocal({DraggingTextL, TextStartL, TextEndL, DrawingL, CurrentStrokeL, MouseDownL, PanningL})
    {
      TextDragEnd(textNewId);
      PenDrawEnd(strokeNewId);
      isMouseDown := false;
      isPanning := false;
    }

    /** A right-click on a note or stroke opens the context menu for it. */
    method OpenContextMenu(x: real, y: real, itemId: string)
      modifies this
      ensures contextMenu == Some(MenuAnchor(x, y, itemId)) && OnlyLocal({MenuL})
    {
      contextMenu := Some(MenuAnchor(x, y, itemId));
    }

    /** A click on a stroke selects it and closes the context menu. */
    method SelectStroke(id: string)
      modifies this, store
      ensures store.selectedItemId == Some(id) && store.OnlyChanged({SelectedItemF})
      ensures contextMenu == None && OnlyLocal({MenuL})
    {
      store.SetSelectedItemId(Some(id));
      contextMenu := None;
    }

    /** A click on a connector's hit path selects it (components/Connection.tsx). */
    method SelectConnection(id: string)
      modifies store
      ensures store.selectedItemId == Some(id) && store.OnlyChanged({SelectedItemF})
      ensures forall c: Connection :: ConnectionView.IsSelected(c, store.selectedItemId) <==> c.id == id
    {
      store.SetSelectedItemId(Some(id));
    }

    /** A document keydown or mousedown reaches the open menu's listeners,
        whose `onClose` clears the canvas's menu anchor; with no menu shown
        there are no listeners. */
    method MenuDocumentEvent(e: ContextMenu.MenuEvent)
      modifies this
      ensures contextMenu == (if old(contextMenu).Some? && ContextMenu.Closes(e) then None else old(contextMenu))
      ensures OnlyLocal({MenuL})
    {
      if contextMenu.Some? && ContextMenu.Closes(e) {
        contextMenu := None;
      }
    }

    /** The context menu's Delete item: deletes the item the menu was opened
        for, then closes the menu. */
    method ContextMenuDelete()
      requires contextMenu.Some?
      modifies this, store, log
      ensures ItemDeleted(store, log, old(contextMenu).value.itemId)
      ensures contextMenu == None && OnlyLocal({MenuL})
    {
      DeleteItem(contextMenu.value.itemId);
      contextMenu := None;
    }
  }
}
