/** Board entities as the client holds them in memory (types.ts), the partial
    records the store merges into them, and the small value types shared by
    the canvas components. Coordinates and sizes are exact reals. */
module Types {

  datatype Option<T> = None | Some(value: T) {
    function GetOr(default: T): T {
      if Some? then value else default
    }
  }

  /** JavaScript truthiness of an optional id: null and "" are both falsy. */
  predicate Truthy(o: Option<string>) {
    o.Some? && o.value != ""
  }

  datatype Point = Point(x: real, y: real)

  /** `Math.abs`, `Math.min`, `Math.max` over reals. */
  function Abs(a: real): real { if a < 0.0 then -a else a }
  function Min(a: real, b: real): real { if a <= b then a else b }
  function Max(a: real, b: real): real { if a >= b then a else b }

  /** A board object (sticky note or free text box). */
  datatype Note = Note(
    id: string,
    board_id: string,
    content: string,
    x: real,
    y: real,
    width: real,
    height: real,
    color: string)

  /** A directed connector between two board objects. */
  datatype Connection = Connection(
    id: string,
    board_id: string,
    from_object_id: string,
    to_object_id: string,
    color: string,
    stroke_width: real)

  /** A freehand ink stroke: its points are in canvas space. */
  datatype Stroke = Stroke(
    id: string,
    board_id: string,
    created_by: string,
    color: string,
    stroke_width: real,
    points: seq<Point>)

  /** Presence of another user. */
  datatype Cursor = Cursor(
    user_id: string,
    display_name: string,
    cursor_x: real,
    cursor_y: real,
    color: string)

  /** Pan offset in screen pixels and scale factor. */
  datatype Viewport = Viewport(x: real, y: real, zoom: real)

  datatype Tool = SelectTool | NoteTool | TextTool | ArrowTool | PenTool | EraserTool

  function NoteId(n: Note): string { n.id }
  function ConnectionId(c: Connection): string { c.id }
  function StrokeId(s: Stroke): string { s.id }
  function CursorUser(c: Cursor): string { c.user_id }

  /** `Partial<Note>`: a field that is Some overrides the note's field. */
  datatype NotePatch = NotePatch(
    id: Option<string>,
    board_id: Option<string>,
    content: Option<string>,
    x: Option<real>,
    y: Option<real>,
    width: Option<real>,
    height: Option<real>,
    color: Option<string>)

  const EmptyNotePatch := NotePatch(None, None, None, None, None, None, None, None)

  function PositionPatch(x: real, y: real): NotePatch {
    EmptyNotePatch.(x := Some(x), y := Some(y))
  }

  function SizePatch(width: real, height: real): NotePatch {
    EmptyNotePatch.(width := Some(width), height := Some(height))
  }

  function ContentPatch(content: string): NotePatch {
    EmptyNotePatch.(content := Some(content))
  }

  /** The object spread `{ ...n, ...u }`. */
  function MergeNote(n: Note, u: NotePatch): Note {
    Note(u.id.GetOr(n.id), u.board_id.GetOr(n.board_id), u.content.GetOr(n.content),
         u.x.GetOr(n.x), u.y.GetOr(n.y), u.width.GetOr(n.width), u.height.GetOr(n.height),
         u.color.GetOr(n.color))
  }

  datatype ConnectionPatch = ConnectionPatch(
    id: Option<string>,
    board_id: Option<string>,
    from_object_id: Option<string>,
    to_object_id: Option<string>,
    color: Option<string>,
    stroke_width: Option<real>)

  function MergeConnection(c: Connection, u: ConnectionPatch): Connection {
    Connection(u.id.GetOr(c.id), u.board_id.GetOr(c.board_id),
               u.from_object_id.GetOr(c.from_object_id), u.to_object_id.GetOr(c.to_object_id),
               u.color.GetOr(c.color), u.stroke_width.GetOr(c.stroke_width))
  }

  datatype StrokePatch = StrokePatch(
    id: Option<string>,
    board_id: Option<string>,
    created_by: Option<string>,
    color: Option<string>,
    stroke_width: Option<real>,
    points: Option<seq<Point>>)

  function MergeStroke(s: Stroke, u: StrokePatch): Stroke {
    Stroke(u.id.GetOr(s.id), u.board_id.GetOr(s.board_id), u.created_by.GetOr(s.created_by),
           u.color.GetOr(s.color), u.stroke_width.GetOr(s.stroke_width), u.points.GetOr(s.points))
  }

  /** Spreading a patch a second time changes nothing. */
  lemma MergeNoteIdempotent(n: Note, u: NotePatch)
    ensures MergeNote(MergeNote(n, u), u) == MergeNote(n, u)
  {
  }

  lemma MergeConnectionIdempotent(c: Connection, u: ConnectionPatch)
    ensures MergeConnection(MergeConnection(c, u), u) == MergeConnection(c, u)
  {
  }

  lemma MergeStrokeIdempotent(s: Stroke, u: StrokePatch)
    ensures MergeStroke(MergeStroke(s, u), u) == MergeStroke(s, u)
  {
  }
}
