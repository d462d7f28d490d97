/** The client-side board store (store.ts): entity lists, stroke settings,
    selection, tool mode and viewport, with the actions that overwrite them.
    Each action's new value is given by a pure function; the properties of
    those functions are the lemmas below. */
module Store {
  import opened Types
  import opened SeqOps

  const MinZoom: real := 0.1
  const MaxZoom: real := 3.0

  // ------------------------------------------------------------ viewport

  /** Screen point (relative to the canvas element) to canvas point. */
  function ToCanvas(p: Point, v: Viewport): Point
    requires v.zoom != 0.0
  {
    Point((p.x - v.x) / v.zoom, (p.y - v.y) / v.zoom)
  }

  /** Canvas point to screen point: the content layer's
      `translate(x, y) scale(zoom)` transform with origin 0 0. */
  function ToScreen(q: Point, v: Viewport): Point
  {
    Point(v.x + q.x * v.zoom, v.y + q.y * v.zoom)
  }

  /** The two conversions are inverse to each other for any non-zero zoom. */
  lemma ScreenCanvasRoundTrip(p: Point, q: Point, v: Viewport)
    requires v.zoom != 0.0
    ensures ToScreen(ToCanvas(p, v), v) == p
    ensures ToCanvas(ToScreen(q, v), v) == q
  {
    DivMulCancel(p.x - v.x, v.zoom);
    DivMulCancel(p.y - v.y, v.zoom);
    MulDivCancel(q.x, v.zoom);
    MulDivCancel(q.y, v.zoom);
  }

  lemma DivMulCancel(a: real, z: real)
    requires z != 0.0
    ensures (a / z) * z == a
  {
  }

  lemma MulDivCancel(a: real, z: real)
    requires z != 0.0
    ensures (a * z) / z == a
  {
  }

  function Pan(v: Viewport, dx: real, dy: real): Viewport
  {
    v.(x := v.x + dx, y := v.y + dy)
  }

  /** Panning moves every canvas point by exactly (dx, dy) on screen and keeps the zoom. */
  lemma PanMovesScreen(v: Viewport, dx: real, dy: real, q: Point)
    ensures Pan(v, dx, dy).zoom == v.zoom
    ensures ToScreen(q, Pan(v, dx, dy)) == Point(ToScreen(q, v).x + dx, ToScreen(q, v).y + dy)
  {
  }

  /** `Math.max(0.1, Math.min(3, z))`. */
  function ClampZoom(z: real): (r: real)
    ensures MinZoom <= r <= MaxZoom
    ensures MinZoom <= z <= MaxZoom ==> r == z
    ensures z < MinZoom ==> r == MinZoom
    ensures z > MaxZoom ==> r == MaxZoom
  {
    var capped := if z < MaxZoom then z else MaxZoom;
    if MinZoom < capped then capped else MinZoom
  }

  /** zoomViewport: new zoom is the clamped sum; the pan offset is rescaled
      about the centre (cx, cy). */
  function ZoomAbout(v: Viewport, delta: real, cx: real, cy: real): (r: Viewport)
    requires v.zoom != 0.0
    ensures MinZoom <= r.zoom <= MaxZoom
    ensures r.zoom == ClampZoom(v.zoom + delta)
  {
    var z := ClampZoom(v.zoom + delta);
    var ratio := z / v.zoom;
    Viewport(cx - (cx - v.x) * ratio, cy - (cy - v.y) * ratio, z)
  }

  lemma RescaleKeepsPoint(c: real, x: real, z: real, z': real)
    requires z != 0.0 && z' != 0.0
    ensures (c - (c - (c - x) * (z' / z))) / z' == (c - x) / z
  {
    var d := c - x;
    assert c - (c - d * (z' / z)) == d * (z' / z);
    calc {
      (d * (z' / z)) / z';
      == { assert d * (z' / z) == (d / z) * z'; }
      ((d / z) * z') / z';
      == { MulDivCancel(d / z, z'); }
      d / z;
    }
  }

  /** The canvas point under the zoom centre does not move. */
  lemma ZoomKeepsCentre(v: Viewport, delta: real, cx: real, cy: real)
    requires v.zoom != 0.0
    ensures ToCanvas(Point(cx, cy), ZoomAbout(v, delta, cx, cy)) == ToCanvas(Point(cx, cy), v)
  {
    var r := ZoomAbout(v, delta, cx, cy);
    RescaleKeepsPoint(cx, v.x, v.zoom, r.zoom);
    RescaleKeepsPoint(cy, v.y, v.zoom, r.zoom);
  }

  /** Zooming further at a limit leaves the whole viewport as it was. */
  lemma ZoomAtLimit(v: Viewport, delta: real, cx: real, cy: real)
    requires (v.zoom == MaxZoom && delta >= 0.0) || (v.zoom == MinZoom && delta <= 0.0)
    ensures ZoomAbout(v, delta, cx, cy) == v
  {
    var r := ZoomAbout(v, delta, cx, cy);
    assert r.zoom == v.zoom;
    assert r.zoom / v.zoom == 1.0;
  }

  // ------------------------------------------------------- entity lists

  function UpdateNotes(ns: seq<Note>, id: string, u: NotePatch): seq<Note> {
    MapWhere(ns, NoteId, id, MergeNote, u)
  }

  function DeleteNotes(ns: seq<Note>, id: string): seq<Note> {
    RemoveWhere(ns, NoteId, id)
  }

  function UpdateConnections(cs: seq<Connection>, id: string, u: ConnectionPatch): seq<Connection> {
    MapWhere(cs, ConnectionId, id, MergeConnection, u)
  }

  function DeleteConnections(cs: seq<Connection>, id: string): seq<Connection> {
    RemoveWhere(cs, ConnectionId, id)
  }

  function UpdateStrokes(ss: seq<Stroke>, id: string, u: StrokePatch): seq<Stroke> {
    MapWhere(ss, StrokeId, id, MergeStroke, u)
  }

  function DeleteStrokes(ss: seq<Stroke>, id: string): seq<Stroke> {
    RemoveWhere(ss, StrokeId, id)
  }

  function UpsertCursor(cs: seq<Cursor>, c: Cursor): seq<Cursor> {
    Upsert(cs, CursorUser, c)
  }

  /** updateNote merges u into every note with that id, leaves every other
      note where it was, and is a no-op for an unknown id. */
  lemma UpdateNotesSpec(ns: seq<Note>, id: string, u: NotePatch)
    ensures |UpdateNotes(ns, id, u)| == |ns|
    ensures forall i :: 0 <= i < |ns| && ns[i].id == id ==> UpdateNotes(ns, id, u)[i] == MergeNote(ns[i], u)
    ensures forall i :: 0 <= i < |ns| && ns[i].id != id ==> UpdateNotes(ns, id, u)[i] == ns[i]
    ensures Count(ns, NoteId, id) == 0 ==> UpdateNotes(ns, id, u) == ns
  {
    if Count(ns, NoteId, id) == 0 {
      MapWhereAbsent(ns, NoteId, id, MergeNote, u);
    }
  }

  /** Re-applying the same update (the echo of an optimistic edit) changes nothing. */
  lemma UpdateNotesIdempotent(ns: seq<Note>, id: string, u: NotePatch)
    ensures UpdateNotes(UpdateNotes(ns, id, u), id, u) == UpdateNotes(ns, id, u)
  {
    forall n ensures MergeNote(MergeNote(n, u), u) == MergeNote(n, u) {
      MergeNoteIdempotent(n, u);
    }
    MapWhereIdempotent(ns, NoteId, id, MergeNote, u);
  }

  lemma UpdateConnectionsIdempotent(cs: seq<Connection>, id: string, u: ConnectionPatch)
    ensures UpdateConnections(UpdateConnections(cs, id, u), id, u) == UpdateConnections(cs, id, u)
  {
    forall c ensures MergeConnection(MergeConnection(c, u), u) == MergeConnection(c, u) {
      MergeConnectionIdempotent(c, u);
    }
    MapWhereIdempotent(cs, ConnectionId, id, MergeConnection, u);
  }

  lemma UpdateStrokesIdempotent(ss: seq<Stroke>, id: string, u: StrokePatch)
    ensures UpdateStrokes(UpdateStrokes(ss, id, u), id, u) == UpdateStrokes(ss, id, u)
  {
    forall s ensures MergeStroke(MergeStroke(s, u), u) == MergeStroke(s, u) {
      MergeStrokeIdempotent(s, u);
    }
    MapWhereIdempotent(ss, StrokeId, id, MergeStroke, u);
  }

  /** deleteNote: no note with the id is left, every other note is kept in
      its original order (any list with those properties is this one), and
      deleting again changes nothing. */
  lemma DeleteNotesSpec(ns: seq<Note>, id: string)
    ensures forall i :: 0 <= i < |DeleteNotes(ns, id)| ==> DeleteNotes(ns, id)[i].id != id
    ensures |DeleteNotes(ns, id)| == |ns| - Count(ns, NoteId, id)
    ensures IsSubseq(DeleteNotes(ns, id), ns)
    ensures forall t: seq<Note> :: IsSubseq(t, ns) && (forall i :: 0 <= i < |t| ==> t[i].id != id) && |t| == |ns| - Count(ns, NoteId, id)
              ==> t == DeleteNotes(ns, id)
    ensures DeleteNotes(DeleteNotes(ns, id), id) == DeleteNotes(ns, id)
  {
    forall t: seq<Note> | IsSubseq(t, ns) && (forall i :: 0 <= i < |t| ==> t[i].id != id) && |t| == |ns| - Count(ns, NoteId, id)
      ensures t == DeleteNotes(ns, id)
    {
      RemoveWhereUnique(t, ns, NoteId, id);
    }
    RemoveWhereIdempotent(ns, NoteId, id);
  }

  lemma DeleteConnectionsSpec(cs: seq<Connection>, id: string)
    ensures forall i :: 0 <= i < |DeleteConnections(cs, id)| ==> DeleteConnections(cs, id)[i].id != id
    ensures IsSubseq(DeleteConnections(cs, id), cs)
    ensures |DeleteConnections(cs, id)| == |cs| - Count(cs, ConnectionId, id)
    ensures DeleteConnections(DeleteConnections(cs, id), id) == DeleteConnections(cs, id)
  {
    RemoveWhereIdempotent(cs, ConnectionId, id);
  }

  lemma DeleteStrokesSpec(ss: seq<Stroke>, id: string)
    ensures forall i :: 0 <= i < |DeleteStrokes(ss, id)| ==> DeleteStrokes(ss, id)[i].id != id
    ensures IsSubseq(DeleteStrokes(ss, id), ss)
    ensures |DeleteStrokes(ss, id)| == |ss| - Count(ss, StrokeId, id)
    ensures DeleteStrokes(DeleteStrokes(ss, id), id) == DeleteStrokes(ss, id)
  {
    RemoveWhereIdempotent(ss, StrokeId, id);
  }

  /** addNote appends and never de-duplicates: adding an id twice leaves two copies. */
  lemma AddNoteKeepsDuplicates(ns: seq<Note>, n: Note)
    ensures Count(Append(Append(ns, n), n), NoteId, n.id) == Count(ns, NoteId, n.id) + 2
  {
    AppendCount(ns, n, NoteId);
    AppendCount(Append(ns, n), n, NoteId);
  }

  /** updateCursor keeps one entry per user it already had entries for and
      adds exactly one for a new user. */
  lemma UpsertCursorSpec(cs: seq<Cursor>, c: Cursor)
    ensures Count(UpsertCursor(cs, c), CursorUser, c.user_id)
            == if Count(cs, CursorUser, c.user_id) == 0 then 1 else Count(cs, CursorUser, c.user_id)
    ensures forall i :: 0 <= i < |UpsertCursor(cs, c)| && UpsertCursor(cs, c)[i].user_id == c.user_id
              ==> UpsertCursor(cs, c)[i] == c
    ensures forall u :: u != c.user_id ==> Count(UpsertCursor(cs, c), CursorUser, u) == Count(cs, CursorUser, u)
  {
    UpsertSpec(cs, CursorUser, c);
  }

  // -------------------------------------------------------------- store

  /** The store's fields, named so that an action can say which ones it changes. */
  datatype Field = NotesF | ConnectionsF | StrokesF | CursorsF | StrokeColorF | StrokeWidthF
                 | AnchorF | SelectedItemF | ToolF | ViewportF

  class BoardStore {
    var notes: seq<Note>
    var connections: seq<Connection>
    var strokes: seq<Stroke>
    var cursors: seq<Cursor>
    var strokeColor: string
    var strokeWidth: real
    /** The connection anchor set by a shift-click. */
    var selectedNoteId: Option<string>
    var selectedItemId: Option<string>
    var selectedTool: Tool
    var viewport: Viewport

    /** Every conversion divides by the zoom. */
    ghost predicate Valid()
      reads this
    {
      viewport.zoom > 0.0
    }

    /** Only the fields in fs differ from the old state. */
    twostate predicate OnlyChanged(fs: set<Field>)
      reads this
    {
      && (NotesF !in fs ==> notes == old(notes))
      && (ConnectionsF !in fs ==> connections == old(connections))
      && (StrokesF !in fs ==> strokes == old(strokes))
      && (CursorsF !in fs ==> cursors == old(cursors))
      && (StrokeColorF !in fs ==> strokeColor == old(strokeColor))
      && (StrokeWidthF !in fs ==> strokeWidth == old(strokeWidth))
      && (AnchorF !in fs ==> selectedNoteId == old(selectedNoteId))
      && (SelectedItemF !in fs ==> selectedItemId == old(selectedItemId))
      && (ToolF !in fs ==> selectedTool == old(selectedTool))
      && (ViewportF !in fs ==> viewport == old(viewport))
    }

    constructor ()
      ensures Valid()
      ensures notes == [] && connections == [] && strokes == [] && cursors == []
      ensures strokeColor == "#3b82f6" && strokeWidth == 2.0
      ensures selectedNoteId == None && selectedItemId == None && selectedTool == SelectTool
      ensures viewport == Viewport(0.0, 0.0, 1.0)
    {
      notes, connections, strokes, cursors := [], [], [], [];
      strokeColor, strokeWidth := "#3b82f6", 2.0;
      selectedNoteId, selectedItemId, selectedTool := None, None, SelectTool;
      viewport := Viewport(0.0, 0.0, 1.0);
    }

    method SetNotes(ns: seq<Note>)
      modifies this
      ensures notes == ns && OnlyChanged({NotesF})
    {
      notes := ns;
    }

    method AddNote(n: Note)
      modifies this
      ensures notes == Append(old(notes), n) && OnlyChanged({NotesF})
    {
      notes := notes + [n];
    }

    method UpdateNote(id: string, u: NotePatch)
      modifies this
      ensures notes == UpdateNotes(old(notes), id, u) && OnlyChanged({NotesF})
    {
      notes := UpdateNotes(notes, id, u);
    }

    method DeleteNote(id: string)
      modifies this
      ensures notes == DeleteNotes(old(notes), id) && OnlyChanged({NotesF})
    {
      notes := DeleteNotes(notes, id);
    }

    method SetConnections(cs: seq<Connection>)
      modifies this
      ensures connections == cs && OnlyChanged({ConnectionsF})
    {
      connections := cs;
    }

    method AddConnection(c: Connection)
      modifies this
      ensures connections == Append(old(connections), c) && OnlyChanged({ConnectionsF})
    {
      connections := connections + [c];
    }

    method UpdateConnection(id: string, u: ConnectionPatch)
      modifies this
      ensures connections == UpdateConnections(old(connections), id, u) && OnlyChanged({ConnectionsF})
    {
      connections := UpdateConnections(connections, id, u);
    }

    method DeleteConnection(id: string)
      modifies this
      ensures connections == DeleteConnections(old(connections), id) && OnlyChanged({ConnectionsF})
    {
      connections := DeleteConnections(connections, id);
    }

    method SetStrokes(ss: seq<Stroke>)
      modifies this
      ensures strokes == ss && OnlyChanged({StrokesF})
    {
      strokes := ss;
    }

    method AddStroke(s: Stroke)
      modifies this
      ensures strokes == Append(old(strokes), s) && OnlyChanged({StrokesF})
    {
      strokes := strokes + [s];
    }

    method UpdateStroke(id: string, u: StrokePatch)
      modifies this
      ensures strokes == UpdateStrokes(old(strokes), id, u) && OnlyChanged({StrokesF})
    {
      strokes := UpdateStrokes(strokes, id, u);
    }

    method DeleteStroke(id: string)
      modifies this
      ensures strokes == DeleteStrokes(old(strokes), id) && OnlyChanged({StrokesF})
    {
      strokes := DeleteStrokes(strokes, id);
    }

    method SetStrokeColor(color: string)
      modifies this
      ensures strokeColor == color && OnlyChanged({StrokeColorF})
    {
      strokeColor := color;
    }

    method SetStrokeWidth(width: real)
      modifies this
      ensures strokeWidth == width && OnlyChanged({StrokeWidthF})
    {
      strokeWidth := width;
    }

    method SetSelectedNoteId(id: Option<string>)
      modifies this
      ensures selectedNoteId == id && OnlyChanged({AnchorF})
    {
      selectedNoteId := id;
    }

    method SetSelectedItemId(id: Option<string>)
      modifies this
      ensures selectedItemId == id && OnlyChanged({SelectedItemF})
    {
      selectedItemId := id;
    }

    method SetSelectedTool(tool: Tool)
      modifies this
      ensures selectedTool == tool && OnlyChanged({ToolF})
    {
      selectedTool := tool;
    }

    method SetCursors(cs: seq<Cursor>)
      modifies this
      ensures cursors == cs && OnlyChanged({CursorsF})
    {
      cursors := cs;
    }

    method UpdateCursor(c: Cursor)
      modifies this
      ensures cursors == UpsertCursor(old(cursors), c) && OnlyChanged({CursorsF})
    {
      cursors := UpsertCursor(cursors, c);
    }

    /** The store accepts any viewport; it stays valid exactly when the new zoom is positive. */
    method SetViewport(v: Viewport)
      modifies this
      ensures viewport == v && OnlyChanged({ViewportF})
      ensures Valid() <==> v.zoom > 0.0
    {
      viewport := v;
    }

    method PanViewport(dx: real, dy: real)
      modifies this
      ensures viewport == Pan(old(viewport), dx, dy) && OnlyChanged({ViewportF})
      ensures old(Valid()) ==> Valid()
    {
      viewport := Pan(viewport, dx, dy);
    }

    method ZoomViewport(delta: real, centerX: real, centerY: real)
      requires viewport.zoom != 0.0
      modifies this
      ensures viewport == ZoomAbout(old(viewport), delta, centerX, centerY) && OnlyChanged({ViewportF})
      ensures Valid() && MinZoom <= viewport.zoom <= MaxZoom
      ensures ToCanvas(Point(centerX, centerY), viewport) == ToCanvas(Point(centerX, centerY), old(viewport))
    {
      ZoomKeepsCentre(viewport, delta, centerX, centerY);
      viewport := ZoomAbout(viewport, delta, centerX, centerY);
    }
  }
}
