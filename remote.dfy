/** The remote writes the canvas components issue against the board tables,
    kept as an ordered log of intended writes. The database itself, its
    replies and the realtime echo are outside the model: an insert's reply is
    passed to the component as the id the database assigned, or None when no
    row came back. */
module Remote {
  import opened Types

  datatype Write =
    | InsertObject(board_id: string, kind: string, content: string,
                   x: real, y: real, width: real, height: real, color: string)
    | UpdateObject(id: string, patch: NotePatch)
    | DeleteObject(id: string)
    | InsertStroke(board_id: string, created_by: string, color: string,
                   stroke_width: real, points: seq<Point>)
    | DeleteStroke(id: string)
    | InsertConnection(board_id: string, from_object_id: string, to_object_id: string,
                       color: string, stroke_width: real)

  /** The writes an optional write contributes to the log. */
  function Writes(w: Option<Write>): seq<Write> {
    if w.Some? then [w.value] else []
  }

  /** The row an object insert returns, taken to be the values sent under
      the new id. */
  function InsertedNote(w: Write, id: string): Note
    requires w.InsertObject?
  {
    Note(id, w.board_id, w.content, w.x, w.y, w.width, w.height, w.color)
  }

  function InsertedStroke(w: Write, id: string): Stroke
    requires w.InsertStroke?
  {
    Stroke(id, w.board_id, w.created_by, w.color, w.stroke_width, w.points)
  }

  function InsertedConnection(w: Write, id: string): Connection
    requires w.InsertConnection?
  {
    Connection(id, w.board_id, w.from_object_id, w.to_object_id, w.color, w.stroke_width)
  }

  class WriteLog {
    var writes: seq<Write>

    constructor ()
      ensures writes == []
    {
      writes := [];
    }

    method Send(w: Write)
      modifies this
      ensures writes == old(writes) + [w]
    {
      writes := writes + [w];
    }
  }
}
