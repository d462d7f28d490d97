/** A rendered note's gestures (components/Note.tsx): dragging, resizing with
    a minimum size, the shift-click connection anchor, and committing the
    edited text. The gesture library's offsets arrive as method inputs. */
module NoteView {
  import opened Types
  import opened SeqOps
  import opened Store
  import opened Remote
  import Canvas

  const MinWidth := 100.0
  const MinHeight := 50.0
  const ConnectorColor := "#000000"
  const ConnectorWidth := 2.0

  /** The size a resize frame with offset (x, y) asks for, floored at 100 by 50. */
  function ResizedSize(n: Note, x: real, y: real): (r: Point)
    ensures r.x >= MinWidth && r.y >= MinHeight
    ensures r.x >= n.width + x && r.y >= n.height + y
    ensures (r.x == n.width + x || r.x == MinWidth) && (r.y == n.height + y || r.y == MinHeight)
  {
    Point(Max(MinWidth, n.width + x), Max(MinHeight, n.height + y))
  }

  /** What the note shows while resizing: its size plus the live offset. */
  function DisplayedSize(n: Note, isResizing: bool, offset: Point): Point {
    if isResizing then Point(n.width + offset.x, n.height + offset.y) else Point(n.width, n.height)
  }

  /** What it shows while dragging: its position plus the live offset. */
  function DisplayedPosition(n: Note, isDragging: bool, offset: Point): Point {
    if isDragging then Point(n.x + offset.x, n.y + offset.y) else Point(n.x, n.y)
  }

  /** The committed size from the offset kept so far, re-floored. */
  function CommittedSize(n: Note, offset: Point): Point {
    ResizedSize(n, offset.x, offset.y)
  }

  /** Committing the offset a resize frame stored gives exactly the size that
      frame displayed, so commit and preview agree and neither is below the floor. */
  lemma ResizeCommitMatchesPreview(n: Note, x: real, y: real)
    ensures var s := ResizedSize(n, x, y);
      var offset := Point(s.x - n.width, s.y - n.height);
      && DisplayedSize(n, true, offset) == s
      && CommittedSize(n, offset) == s
      && s.x >= MinWidth && s.y >= MinHeight
  {
  }

  /** The drag preview shows the note at the gesture's offset, and so does
      the committed note once the preview is switched off. */
  lemma DragPreviewMatchesCommit(ns: seq<Note>, n: Note, x: real, y: real)
    ensures DisplayedPosition(n, true, Point(x - n.x, y - n.y)) == Point(x, y)
    ensures forall m :: m in UpdateNotes(ns, n.id, PositionPatch(x, y)) && m.id == n.id ==>
              DisplayedPosition(m, false, Point(0.0, 0.0)) == Point(x, y)
  {
    forall m | m in UpdateNotes(ns, n.id, PositionPatch(x, y)) && m.id == n.id
      ensures m.x == x && m.y == y
    {
      var i :| 0 <= i < |ns| && UpdateNotes(ns, n.id, PositionPatch(x, y))[i] == m;
      assert ns[i].id == n.id;
    }
  }

  /** The drag gesture starts from the note's canvas position and adds the
      pointer's screen movement (mx, my) to it, with no division by the zoom.
      On screen the committed note therefore moves by the movement times the
      zoom, so it keeps up with the pointer only at zoom 1 (or for no movement). */
  lemma LiveDragIgnoresZoom(n: Note, mx: real, my: real, v: Viewport)
    ensures var before := ToScreen(Point(n.x, n.y), v);
      ToScreen(Point(n.x + mx, n.y + my), v) == Point(before.x + mx * v.zoom, before.y + my * v.zoom)
    ensures ToScreen(Point(n.x + mx, n.y + my), v).x == ToScreen(Point(n.x, n.y), v).x + mx
            <==> mx == 0.0 || v.zoom == 1.0
  {
    assert (n.x + mx) * v.zoom == n.x * v.zoom + mx * v.zoom;
    assert (n.y + my) * v.zoom == n.y * v.zoom + my * v.zoom;
    assert mx * v.zoom - mx == mx * (v.zoom - 1.0);
    if mx != 0.0 && v.zoom != 1.0 {
      if mx > 0.0 {
        if v.zoom > 1.0 { assert mx * (v.zoom - 1.0) > 0.0; } else { assert mx * (v.zoom - 1.0) < 0.0; }
      } else {
        if v.zoom > 1.0 { assert mx * (v.zoom - 1.0) < 0.0; } else { assert mx * (v.zoom - 1.0) > 0.0; }
      }
    }
  }

  /** At zoom 2, a 50-pixel drag of a note at x = 100 commits x = 150, which
      shows 100 pixels further right: twice the pointer's movement. Dividing
      the movement by the zoom, as `Canvas.DraggedTo` does, gives 125, which
      shows exactly 50 pixels further right. */
  lemma LiveDragAtZoomTwo(n: Note, v: Viewport)
    requires n.x == 100.0 && v.zoom == 2.0
    ensures var committed := Point(n.x + 50.0, n.y);
      && committed.x == 150.0
      && ToScreen(committed, v).x == ToScreen(Point(n.x, n.y), v).x + 100.0
    ensures var intended := Canvas.DraggedTo(n, 50.0, 0.0, v.zoom);
      && intended.x == 125.0
      && ToScreen(intended, v).x == ToScreen(Point(n.x, n.y), v).x + 50.0
  {
    LiveDragIgnoresZoom(n, 50.0, 0.0, v);
    Canvas.DragFollowsPointer(n, 50.0, 0.0, v);
  }

  /** A patch built from one field leaves every other field of every matching note alone. */
  lemma FieldPatches(ns: seq<Note>, id: string, x: real, y: real, content: string)
    ensures forall i :: 0 <= i < |ns| && ns[i].id == id ==>
              UpdateNotes(ns, id, PositionPatch(x, y))[i] == ns[i].(x := x, y := y)
    ensures forall i :: 0 <= i < |ns| && ns[i].id == id ==>
              UpdateNotes(ns, id, SizePatch(x, y))[i] == ns[i].(width := x, height := y)
    ensures forall i :: 0 <= i < |ns| && ns[i].id == id ==>
              UpdateNotes(ns, id, ContentPatch(content))[i] == ns[i].(content := content)
  {
  }

  /** The anchor after a click: a shift-click sets it when none (or "") is
      set, keeps it on the anchor note itself, and clears it after connecting. */
  function AnchorAfter(anchor: Option<string>, n: Note, shift: bool): Option<string> {
    if !shift then anchor
    else if !Truthy(anchor) then Some(n.id)
    else if anchor.value == n.id then anchor
    else None
  }

  /** The connection insert a click sends, if any. */
  function ConnectWrite(anchor: Option<string>, n: Note, shift: bool): (w: Option<Write>)
    ensures w.Some? <==> shift && Truthy(anchor) && anchor.value != n.id
    ensures w.Some? ==> w.value == InsertConnection(n.board_id, anchor.value, n.id, ConnectorColor, ConnectorWidth)
  {
    if shift && Truthy(anchor) && anchor.value != n.id then
      Some(InsertConnection(n.board_id, anchor.value, n.id, ConnectorColor, ConnectorWidth))
    else None
  }

  /** Two shift-clicks on different notes, starting with no anchor, send
      exactly one connection from the first to the second and leave no anchor;
      a repeated shift-click on the anchor, or a plain click, sends nothing and
      keeps the anchor. */
  lemma ShiftClickPair(a: Note, b: Note, c: Note, anchor: Option<string>)
    requires a.id != "" && a.id != b.id
    ensures ConnectWrite(None, a, true) == None
    ensures ConnectWrite(AnchorAfter(None, a, true), b, true)
            == Some(InsertConnection(b.board_id, a.id, b.id, ConnectorColor, ConnectorWidth))
    ensures AnchorAfter(AnchorAfter(None, a, true), b, true) == None
    ensures ConnectWrite(Some(a.id), a, true) == None && AnchorAfter(Some(a.id), a, true) == Some(a.id)
    ensures ConnectWrite(anchor, c, false) == None && AnchorAfter(anchor, c, false) == anchor
  {
  }

  /** No click ever connects a note to itself. */
  lemma NoSelfConnection(anchor: Option<string>, n: Note, shift: bool)
    ensures ConnectWrite(anchor, n, shift).Some? ==>
              ConnectWrite(anchor, n, shift).value.from_object_id != ConnectWrite(anchor, n, shift).value.to_object_id
  {
  }

  class NoteGesture {
    const store: BoardStore
    const log: WriteLog
    var dragOffset: Point
    var isDragging: bool
    var resizeOffset: Point
    var isResizing: bool

    constructor (store: BoardStore, log: WriteLog)
      ensures this.store == store && this.log == log
      ensures dragOffset == Point(0.0, 0.0) && !isDragging
      ensures resizeOffset == Point(0.0, 0.0) && !isResizing
    {
      this.store := store;
      this.log := log;
      dragOffset, isDragging := Point(0.0, 0.0), false;
      resizeOffset, isResizing := Point(0.0, 0.0), false;
    }

    /** One drag frame with absolute offset (x, y) (the gesture starts from
        the note's position). A frame on the resize handle is ignored; an
        active frame moves the preview unless a resize is running; the last
        frame commits (x, y) and clears the preview. */
    method Drag(n: Note, onResizeHandle: bool, x: real, y: real, active: bool, last: bool)
      modifies this, store, log
      ensures onResizeHandle ==> unchanged(this) && unchanged(store) && unchanged(log)
      ensures !onResizeHandle && last ==>
        && !isDragging && dragOffset == Point(0.0, 0.0)
        && store.notes == UpdateNotes(old(store.notes), n.id, PositionPatch(x, y))
        && log.writes == old(log.writes) + [UpdateObject(n.id, PositionPatch(x, y))]
      ensures !onResizeHandle && !last && active && !old(isResizing) ==>
        isDragging && dragOffset == Point(x - n.x, y - n.y)
      ensures !onResizeHandle && !last && !(active && !old(isResizing)) ==>
        isDragging == old(isDragging) && dragOffset == old(dragOffset)
      ensures !last ==> unchanged(store) && unchanged(log)
      ensures store.OnlyChanged({NotesF})
      ensures resizeOffset == old(resizeOffset) && isResizing == old(isResizing)
    {
      if onResizeHandle {
        return;
      }
      if active && !isResizing {
        isDragging := true;
        dragOffset := Point(x - n.x, y - n.y);
      }
      if last {
        isDragging := false;
        dragOffset := Point(0.0, 0.0);
        store.UpdateNote(n.id, PositionPatch(x, y));
        log.Send(UpdateObject(n.id, PositionPatch(x, y)));
      }
    }

    /** One resize frame with offset (x, y) from the handle's start. An active
        frame stores the floored size as an offset; the last frame commits
        the offset stored before this frame, floored again, and clears it. */
    method Resize(n: Note, x: real, y: real, active: bool, last: bool)
      modifies this, store, log
      ensures active && !last ==>
        && isResizing
        && resizeOffset == Point(ResizedSize(n, x, y).x - n.width, ResizedSize(n, x, y).y - n.height)
        && DisplayedSize(n, isResizing, resizeOffset) == ResizedSize(n, x, y)
      ensures last ==>
        var s := CommittedSize(n, old(resizeOffset));
        && !isResizing && resizeOffset == Point(0.0, 0.0)
        && s.x >= MinWidth && s.y >= MinHeight
        && store.notes == UpdateNotes(old(store.notes), n.id, SizePatch(s.x, s.y))
        && log.writes == old(log.writes) + [UpdateObject(n.id, SizePatch(s.x, s.y))]
      ensures !active && !last ==> unchanged(this)
      ensures !last ==> unchanged(store) && unchanged(log)
      ensures store.OnlyChanged({NotesF})
      ensures dragOffset == old(dragOffset) && isDragging == old(isDragging)
    {
      var stored := resizeOffset;
      if active {
        isResizing := true;
        var s := ResizedSize(n, x, y);
        resizeOffset := Point(s.x - n.width, s.y - n.height);
      }
      if last {
        isResizing := false;
        var s := CommittedSize(n, stored);
        resizeOffset := Point(0.0, 0.0);
        store.UpdateNote(n.id, SizePatch(s.x, s.y));
        log.Send(UpdateObject(n.id, SizePatch(s.x, s.y)));
      }
    }

    /** handleClick: every click selects the note; shift-clicks drive the
        connection anchor. `newId` is the id of the row the insert returned, if any. */
    method Click(n: Note, shift: bool, newId: Option<string>)
      modifies store, log
      ensures store.selectedItemId == Some(n.id)
      ensures store.selectedNoteId == AnchorAfter(old(store.selectedNoteId), n, shift)
      ensures log.writes == old(log.writes) + Writes(ConnectWrite(old(store.selectedNoteId), n, shift))
      ensures var w := ConnectWrite(old(store.selectedNoteId), n, shift);
        store.connections == old(store.connections)
          + (if w.Some? && newId.Some? then [InsertedConnection(w.value, newId.value)] else [])
      ensures store.OnlyChanged({SelectedItemF, AnchorF, ConnectionsF})
    {
      var anchor := store.selectedNoteId;
      store.SetSelectedItemId(Some(n.id));
      if !shift {
        return;
      }
      if !Truthy(anchor) {
        store.SetSelectedNoteId(Some(n.id));
      } else if anchor.value != n.id {
        var w := InsertConnection(n.board_id, anchor.value, n.id, ConnectorColor, ConnectorWidth);
        log.Send(w);
        if newId.Some? {
          store.AddConnection(InsertedConnection(w, newId.value));
        }
        store.SetSelectedNoteId(None);
      }
    }

    /** The textarea's blur: the edited text becomes the note's content. */
    method Blur(n: Note, value: string)
      modifies store, log
      ensures store.notes == UpdateNotes(old(store.notes), n.id, ContentPatch(value))
      ensures store.OnlyChanged({NotesF})
      ensures log.writes == old(log.writes) + [UpdateObject(n.id, ContentPatch(value))]
    {
      store.UpdateNote(n.id, ContentPatch(value));
      log.Send(UpdateObject(n.id, ContentPatch(value)));
    }
  }
}
