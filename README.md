# flowai whiteboard — a verified model of the canvas engine

flowai is a collaborative whiteboard. A board holds sticky notes, text
boxes, pen strokes and connectors between notes. Users pan and zoom the
board, drag and resize notes, draw with a pen, connect notes by
shift-clicking them, and ask an AI assistant for notes or for answers about
the board.

This project models the in-memory engine behind that interface and proves
properties of it:

- **Store** (`store.dfy`): the client-side board store, as the class
  `BoardStore`. It holds notes, connections, strokes, cursors, pen
  settings, the selection, the tool and the viewport. Every action is
  specified by a pure list or viewport function and states which fields it
  changes. The list functions come from `seqops.dfy`. It also proves that
  zooming keeps the canvas point under the zoom centre fixed.
- **Remote writes** (`remote.dfy`): the database is not modelled. Each
  handler instead appends the write it would send to a `WriteLog`. The id
  a database insert returns is a method input (`newId`), with `None` for
  "no row returned".
- **Canvas** (`canvas.dfy`): the canvas component, as the class
  `CanvasController`, with its local gesture state:
  - text drag, pen stroke and pan;
  - the context-menu anchor;
  - the pure helpers: coordinate conversion, id de-duplication,
    `pointsToPath`, the cursor style and the defaults for created objects.
- **Note gestures** (`note_view.dfy`): as the class `NoteGesture`. It
  models drag and resize frames with the 100 × 50 floor, the shift-click
  connection anchor, and the commit of edited text on blur.
- **Connector geometry** (`connection.dfy`):
  - the endpoint lookup;
  - the point where a connector leaves the source note's outline, heading
    for the target centre, and where it enters the target note's outline;
  - the padded bounding box of the curve.
- **AI** (`ai_prompts.dfy`, `ai_route.dfy`, `ai_command_bar.dfy`):
  - the two prompt templates and the keyword list;
  - on the server route: the context builder, the keyword classifier, the
    code-fence extraction, the choice of reply and the error-status
    mapping;
  - the command bar's notes selection and its open, loading, response and
    error state.
- **Board card and context menu** (`board_card.dfy`, `context_menu.dfy`):
  relative-date text, the title initial, menu items and close rules.

Coordinates and zoom are `real`, so the properties are exact mathematical
statements. Time is an integer number of milliseconds.

Where the design description and the code differ, the model follows the
code:

- **Connection fields.** Connections are stored with `from_object_id` and
  `to_object_id`.
- **No arrow tool.** There is no connector tool handler. A connection is
  made only by two shift-clicks in `components/Note.tsx` (lines 103-125).
- **Note clicks.** The canvas passes an `onClick` to each note
  (`components/Canvas.tsx:672-675`). The note component's props have no
  such field (`components/Note.tsx:8-11`), so that callback is never
  called. The note's own `handleClick` does not stop propagation, so a
  note click is modelled by `NoteView.NoteGesture.Click` followed by
  `Canvas.CanvasController.HandleCanvasClick` on a target that is not the
  background. That second step only closes the context menu.
- **Resize commit.** The final resize frame commits the offset stored by
  the frame before it, not its own (`components/Note.tsx:80-81`).
  `NoteView.NoteGesture.Resize` keeps that behaviour. The floor still
  holds at commit.
- **Store fields the command bar reads.** The command bar reads
  `isAiCommandOpen`, `aiCommandInput` and `selectedItemIds` from the store,
  but `store.ts` declares none of them:
  - the open flag and the input are fields of `AiCommandBar.CommandBar`;
  - `selectedItemIds` is a parameter of `Submit`.
- **Connectors cannot be deleted.** A click selects a connector
  (`components/Connection.tsx:96-99`). The Delete key then calls
  `deleteItem`, which treats every id that is not a stroke as a note
  (`components/Canvas.tsx:183-186`). The connector stays in the store.
  `Canvas.CanvasController.DeleteItem` states this.
- **Dragging a note ignores the zoom.** The canvas's `handleDragEnd`
  (`components/Canvas.tsx:65-84`) divides the drag delta by the zoom, but
  it is only the `onDragEnd` of a drag-and-drop context in which no element
  is registered as draggable, so it never runs. Notes are dragged by the
  note's own gesture (`components/Note.tsx:30-61`). That gesture starts
  from the note's canvas position and adds the pointer's screen movement
  unscaled, so at zoom 2 a 50-pixel drag of a note at x = 100 commits
  x = 150, where the design expects 125. `NoteView.NoteGesture.Drag` models
  the live gesture as written, and `NoteView.LiveDragIgnoresZoom` states
  how far the note moves on screen. `Canvas.CanvasController.HandleDragEnd`
  and `Canvas.DragFollowsPointer` model the unreachable handler and the
  rule it would apply.
- **`addNote` keeps duplicates.** Duplicate ids are removed only when
  rendering (`Canvas.UniqueNotesSpec`).

## Model

| member | source | states |
|---|---|---|
| Types.MergeNoteIdempotent | store.ts:64-67 | Merging the same partial note update a second time changes nothing |
| Types.MergeConnectionIdempotent | store.ts:75-80 | The same holds for a partial connection update |
| Types.MergeStrokeIdempotent | store.ts:87-92 | The same holds for a partial stroke update |
| SeqOps.MapWhere | store.ts:64-67 | Mapping only the elements with a given key keeps the length and leaves every other element in place |
| SeqOps.RemoveWhere | store.ts:68-69 | Filtering out a key leaves no element with that key. It keeps the others in order, as a subsequence, and removes exactly as many elements as carried the key |
| SeqOps.RemoveWhereUnique | store.ts:68-69 | That filter result is the only order-preserving subsequence without the key that has that length |
| SeqOps.UpsertSpec | store.ts:123-128 | The upsert replaces every entry with the key when one exists, and appends when none does |
| SeqOps.FirstOccurrencesSpec | components/Canvas.tsx:87-99 | "Index equals first index of its id" keeps exactly the first element per id, in order. No id repeats and no id is lost |
| Store.ScreenCanvasRoundTrip | components/Canvas.tsx:274-275 | Screen→canvas and canvas→screen conversion are mutually inverse for non-zero zoom |
| Store.PanMovesScreen | store.ts:132-135 | Panning by (dx, dy) keeps the zoom and moves every canvas point by exactly (dx, dy) on screen |
| Store.ClampZoom | store.ts:138 | The clamped zoom lies in [0.1, 3]. It is the input when the input is in range, and the nearer bound otherwise |
| Store.ZoomAbout | store.ts:136-146 | The new zoom is clamp(zoom + delta) and lies in [0.1, 3] |
| Store.ZoomKeepsCentre | store.ts:139-145 | The canvas point under the zoom centre is the same before and after zooming |
| Store.ZoomAtLimit | store.ts:136-146 | Zooming further in at 3, or further out at 0.1, leaves the whole viewport unchanged |
| Store.UpdateNotesSpec | store.ts:64-67 | updateNote merges the patch into every note with the id and leaves the others and the order alone. With an unknown id it is a no-op |
| Store.UpdateNotesIdempotent | store.ts:64-67 | Applying the same updateNote twice equals applying it once |
| Store.UpdateConnectionsIdempotent | store.ts:75-80 | updateConnection is idempotent |
| Store.UpdateStrokesIdempotent | store.ts:87-92 | updateStroke is idempotent |
| Store.DeleteNotesSpec | store.ts:68-69 | deleteNote removes every note with the id and keeps the rest in order. It is the unique such subsequence, and deleting again changes nothing |
| Store.DeleteConnectionsSpec | store.ts:81-82 | deleteConnection removes every such connection, keeps the rest in order, and is idempotent |
| Store.DeleteStrokesSpec | store.ts:93-94 | deleteStroke removes every such stroke, keeps the rest in order, and is idempotent |
| Store.AddNoteKeepsDuplicates | store.ts:63 | Adding the same note twice leaves two more copies of its id, because addNote does not de-duplicate |
| Store.UpsertCursorSpec | store.ts:123-128 | After updateCursor the user has as many entries as before, or one if there were none. Each of them is the new cursor, and other users' counts are unchanged |
| Store.BoardStore.constructor | store.ts:61-130 | Initial state: the lists are empty, the pen is #3b82f6 at width 2, nothing is selected, the tool is select and the viewport is (0, 0, 1) |
| Store.BoardStore.SetNotes | store.ts:62 | The notes become the given list and nothing else changes |
| Store.BoardStore.AddNote | store.ts:63 | The note is appended at the end and nothing else changes |
| Store.BoardStore.UpdateNote | store.ts:64-67 | The notes become the per-id merge of the patch and nothing else changes |
| Store.BoardStore.DeleteNote | store.ts:68-69 | The notes become the filtered list and nothing else changes |
| Store.BoardStore.SetConnections | store.ts:72 | The connections become the given list and nothing else changes |
| Store.BoardStore.AddConnection | store.ts:73-74 | The connection is appended and nothing else changes |
| Store.BoardStore.UpdateConnection | store.ts:75-80 | The connections become the per-id merge and nothing else changes |
| Store.BoardStore.DeleteConnection | store.ts:81-82 | The connections become the filtered list and nothing else changes |
| Store.BoardStore.SetStrokes | store.ts:85 | The strokes become the given list and nothing else changes |
| Store.BoardStore.AddStroke | store.ts:86 | The stroke is appended and nothing else changes |
| Store.BoardStore.UpdateStroke | store.ts:87-92 | The strokes become the per-id merge and nothing else changes |
| Store.BoardStore.DeleteStroke | store.ts:93-94 | The strokes become the filtered list and nothing else changes |
| Store.BoardStore.SetStrokeColor | store.ts:97 | Only the pen colour changes |
| Store.BoardStore.SetStrokeWidth | store.ts:99 | Only the pen width changes |
| Store.BoardStore.SetSelectedNoteId | store.ts:102 | Only the connection anchor changes |
| Store.BoardStore.SetSelectedItemId | store.ts:105 | Only the selected item changes |
| Store.BoardStore.SetSelectedTool | store.ts:108 | Only the tool changes |
| Store.BoardStore.SetCursors | store.ts:122 | Only the cursors change |
| Store.BoardStore.UpdateCursor | store.ts:123-128 | The cursors become the upsert by user id and nothing else changes |
| Store.BoardStore.SetViewport | store.ts:131 | The viewport becomes the given one. The store stays valid exactly when its zoom is positive |
| Store.BoardStore.PanViewport | store.ts:132-135 | The viewport is panned, the zoom is kept and validity is preserved |
| Store.BoardStore.ZoomViewport | store.ts:136-146 | The viewport is zoomed about the centre. The zoom stays in [0.1, 3], and the canvas point under the centre is fixed |
| Remote.WriteLog.Send | components/Canvas.tsx:80-83 | Sending appends exactly one write to the log |
| Canvas.ClientToCanvas | components/Canvas.tsx:274-275 | Converting a client point gives the canvas point that is drawn at that point relative to the canvas origin |
| Canvas.DragFollowsPointer | components/Canvas.tsx:73-74 | Moving a note by delta/zoom moves it on screen by exactly the pointer's delta (the rule of `handleDragEnd`, which is never reached; see above) |
| Canvas.WheelDirection | components/Canvas.tsx:449-458 | Scrolling down never zooms in, and scrolling up never zooms out |
| Canvas.PanTrailTelescopes | components/Canvas.tsx:427-434 | Panning by the step since the previous move adds up to panning by the last position minus the start position |
| Canvas.UniqueNotesSpec | components/Canvas.tsx:87-89 | The rendered notes have no repeated id and the same id set. They are in order, each is the first note with its id, and de-duplicating again changes nothing |
| Canvas.UniqueConnectionsSpec | components/Canvas.tsx:92-94 | The rendered connections have no repeated id and the same id set. They are in order, each is the first connection with its id, and de-duplicating again changes nothing |
| Canvas.UniqueStrokesSpec | components/Canvas.tsx:97-99 | The rendered strokes have no repeated id and the same id set. They are in order, each is the first stroke with its id, and de-duplicating again changes nothing |
| Canvas.LineTos | components/Canvas.tsx:528-529 | One `L x y` segment per point, in order |
| Canvas.PointsToPath | components/Canvas.tsx:525-531 | The path is empty exactly when there are no points. Otherwise it starts with `M x0 y0 `, and for a single point it is exactly `M x0 y0 ` with the trailing space. With PointsToPathAppend this fixes the whole string |
| Canvas.PointsToPathAppend | components/Canvas.tsx:525-531 | Each further point appends exactly its `L x y` segment |
| Canvas.GetCursor | components/Canvas.tsx:513-522 | The cursor is grabbing iff panning in select mode, grab iff the mouse is down in select mode, crosshair iff the pen tool, and default otherwise |
| Canvas.ObjectDefaults | components/Canvas.tsx:216-237 | A note gets "New note", 200×150 and #fef3c7. A text box gets "Text", 200×50 and transparent. Any other type gets nothing |
| Canvas.CreateObjectWrite | components/Canvas.tsx:207-243 | An insert is sent exactly for the known types, with those defaults at the given point |
| Canvas.TextBox | components/Canvas.tsx:321-331 | A box exists iff both sides of the drag exceed 20, and then both sides exceed 20 |
| Canvas.TextBoxSpansDrag | components/Canvas.tsx:325-331 | The box is the same whichever way it was dragged. Its origin is the min corner and its size is the absolute deltas |
| Canvas.TextDragWrite | components/Canvas.tsx:321-345 | A text insert is sent iff a drag with both corners was large enough, with content "Text" and a transparent colour |
| Canvas.PenStrokeWrite | components/Canvas.tsx:386-403 | A stroke insert is sent iff drawing with at least 2 points, with pen colour #3b82f6, width 2 and the points |
| Canvas.CanvasController.constructor | components/Canvas.tsx:34-52 | All gesture state starts idle, with empty corners, an empty stroke and no menu |
| Canvas.CanvasController.HandleDragEnd | components/Canvas.tsx:65-84 | An unknown note is a no-op. Otherwise the note moves by delta/zoom, one position update is sent, and nothing else changes (the handler is never reached; see above) |
| Canvas.CanvasController.DeleteItem | components/Canvas.tsx:172-189 | A stroke id deletes that stroke, and any other id deletes the note. The delete is sent first and the selection is cleared in both cases. Connections never change |
| Canvas.CanvasController.KeyDown | components/Canvas.tsx:192-205 | Delete acts on the selected item exactly when one is selected. Any other key, or no selection, changes nothing |
| Canvas.CanvasController.CreateObject | components/Canvas.tsx:207-249 | Sends the insert for a known type. A returned row is appended and the tool returns to select. Nothing happens otherwise |
| Canvas.CanvasController.HandleCanvasClick | components/Canvas.tsx:252-282 | The menu closes. A background click in select mode deselects, and in note mode creates a note at the clicked canvas point |
| Canvas.CanvasController.TextDragStart | components/Canvas.tsx:285-305 | With the text tool on the background, drag state starts at the canvas point. Nothing happens otherwise |
| Canvas.CanvasController.TextDragMove | components/Canvas.tsx:308-318 | While dragging, the far corner follows the pointer |
| Canvas.CanvasController.TextDragEnd | components/Canvas.tsx:321-356 | Sends the insert iff the box is large enough. Drag state is reset whether or not a note was created |
| Canvas.CanvasController.PenDrawStart | components/Canvas.tsx:359-370 | With the pen tool, drawing starts with exactly the pressed point |
| Canvas.CanvasController.PenDrawMove | components/Canvas.tsx:373-383 | While drawing, each move appends exactly one point |
| Canvas.CanvasController.PenDrawEnd | components/Canvas.tsx:386-411 | The stroke is saved iff it has at least 2 points and drawing was on. The pen state is reset either way |
| Canvas.CanvasController.PanStart | components/Canvas.tsx:414-445 | A background press in select mode starts panning from the pressed point |
| Canvas.CanvasController.PanMove | components/Canvas.tsx:427-434 | Pans by the delta since the last move and then records the new last point |
| Canvas.CanvasController.PanRelease | components/Canvas.tsx:437-441 | Ends the pan and removes the listeners |
| Canvas.CanvasController.Wheel | components/Canvas.tsx:452-458 | Zooms by -deltaY·0.001 about the pointer, relative to the canvas origin |
| Canvas.CanvasController.ZoomIn | components/Canvas.tsx:604 | Zooms by +0.1 about the origin |
| Canvas.CanvasController.ZoomOut | components/Canvas.tsx:625 | Zooms by -0.1 about the origin |
| Canvas.CanvasController.ResetView | components/Canvas.tsx:636-638 | The viewport becomes (0, 0, 1) |
| Canvas.CanvasController.MouseDown | components/Canvas.tsx:466-491 | Dispatches to text drag, pen or pan by tool |
| Canvas.CanvasController.MouseMove | components/Canvas.tsx:493-496 | Moves both the text drag and the pen |
| Canvas.CanvasController.MouseUp | components/Canvas.tsx:498-510 | Finishes the text drag and the pen and clears the mouse and pan flags. Mouseup and mouseleave behave the same |
| Canvas.CanvasController.OpenContextMenu | components/Canvas.tsx:676-679 | The menu opens at the pointer for the item |
| Canvas.CanvasController.SelectStroke | components/Canvas.tsx:723-727 | A stroke click selects the stroke and closes the menu |
| Canvas.CanvasController.SelectConnection | components/Connection.tsx:96-99 | A click on a connector selects it and changes nothing else; afterwards a connection is highlighted exactly when its id is the clicked one |
| Canvas.RenderedHighlight | components/Connection.tsx:22 | Among the connectors drawn after de-duplication, a selected id highlights at most one, and exactly one when some connection has that id |
| Canvas.CanvasController.MenuDocumentEvent | components/ContextMenu.tsx:27-47 | While the menu is shown, a document event clears the canvas's menu anchor exactly when `ContextMenu.Closes` holds (Escape, or a press outside the mounted menu), as `onClose` does at components/Canvas.tsx:785. Otherwise the anchor and all other local state stay |
| Canvas.CanvasController.ContextMenuDelete | components/Canvas.tsx:781-788 | The menu's Delete deletes the item it was opened for, then closes the menu |
| NoteView.ResizedSize | components/Note.tsx:69-70 | The size is at least 100×50, at least the asked size, and equal to the asked size or the floor |
| NoteView.ResizeCommitMatchesPreview | components/Note.tsx:66-84 | The stored offset shows the floored size, and committing it reproduces that size |
| NoteView.LiveDragIgnoresZoom | components/Note.tsx:44-57 | The drag commits the start position plus the unscaled screen movement, so on screen the note moves by the movement times the zoom, and keeps up with the pointer iff the zoom is 1 or there is no movement |
| NoteView.LiveDragAtZoomTwo | components/Note.tsx:44-57 | At zoom 2, a 50-pixel drag of a note at x = 100 commits x = 150, which lands 100 pixels to the right on screen. The delta/zoom rule of `Canvas.DraggedTo` would give 125, which lands exactly 50 pixels to the right |
| NoteView.DragPreviewMatchesCommit | components/Note.tsx:38-48 | The drag preview and the committed note are at the same position |
| NoteView.FieldPatches | components/Note.tsx:47 | Position, size and content patches change only their own fields |
| NoteView.ConnectWrite | components/Note.tsx:108-118 | A connection insert is sent iff shift is held, an anchor is set and the anchor is a different note, with colour #000000 and width 2 |
| NoteView.ShiftClickPair | components/Note.tsx:103-125 | Two shift-clicks on different notes, starting with no anchor, make exactly one connection from the first to the second and clear the anchor. A second click on the anchor, or a plain click, does nothing |
| NoteView.NoSelfConnection | components/Note.tsx:108 | No click connects a note to itself |
| NoteView.NoteGesture.constructor | components/Note.tsx:23-28 | Offsets start at zero and both flags are off |
| NoteView.NoteGesture.Drag | components/Note.tsx:30-61 | A frame on the resize handle is ignored. An active frame moves the preview unless a resize runs. The last frame commits (x, y) and resets the offset |
| NoteView.NoteGesture.Resize | components/Note.tsx:64-97 | An active frame stores the floored offset. The last frame commits the stored offset, floored again, and clears it |
| NoteView.NoteGesture.Click | components/Note.tsx:99-126 | Every click selects the note. A shift-click on no anchor sets it, on the anchor changes nothing, and on another note connects and clears the anchor |
| NoteView.NoteGesture.Blur | components/Note.tsx:180-189 | The textarea's text becomes the note's content, and one content update is sent |
| ConnectionView.EndpointNotes | components/Connection.tsx:17-20 | Nothing is drawn iff either endpoint note is missing. Otherwise the two found notes carry the ids |
| ConnectionView.EdgeOffsetOnOutline | components/Connection.tsx:41-49 | The edge offset lies on the rectangle's outline |
| ConnectionView.EdgeOffsetOnDirection | components/Connection.tsx:41-49 | The edge offset points along (dx, dy) from the centre |
| ConnectionView.StartPointOnOutline | components/Connection.tsx:36-49 | The start point is on the source outline, on the ray towards the target, and left or right exactly when abs(dx)/hw > abs(dy)/hh |
| ConnectionView.EndPointIsReverseStart | components/Connection.tsx:52-65 | The end formulas equal the start formulas with the direction reversed |
| ConnectionView.EndPointMirrorsStart | components/Connection.tsx:52-65 | The end point is on the target outline, on the ray back towards the source |
| ConnectionView.CurveBoundsContain | components/Connection.tsx:82-89 | Every path point is at least 30 inside the box, and each side touches a point. Width and height are max - min, both at least 60 |
| ConnectionView.LayoutSpec | components/Connection.tsx:25-89 | The drawn connector leaves the source outline towards the target, enters the target outline from the source, and both ends lie inside the box |
| AiPrompts.CreateNotesContext | lib/ai-prompts.ts:3-18 | Appends "\n" + context exactly when the context is non-empty, and nothing otherwise |
| AiPrompts.AnalyzeContext | lib/ai-prompts.ts:21-27 | The context, when non-empty, sits right after the intro paragraph and before the closing instruction |
| AiPrompts.SharedIntro | lib/ai-prompts.ts:5 | Both templates start with the same intro sentence |
| AiPrompts.AnalyzeIsNotCreateNotes | lib/ai-prompts.ts:21-27 | An analyze prompt never starts like a create-notes prompt |
| AiPrompts.CreateNotesIsNotAnalyze | lib/ai-prompts.ts:3-18 | A create-notes prompt never starts like an analyze prompt |
| AiPrompts.KeywordsLowerCase | lib/ai-prompts.ts:30-42 | There are exactly 11 keywords, all non-empty and lower-case |
| AiPrompts.KeywordsUnchangedByLower | lib/ai-prompts.ts:30-42 | Lower-casing leaves every keyword unchanged |
| AiRoute.Limit | app/api/ai/route.ts:17-18 | At most count entries, each the first ≤ len characters of a note's content, in order |
| AiRoute.Numbered | app/api/ai/route.ts:18 | Entry i is "i+1. " followed by the item |
| AiRoute.BuildContext | app/api/ai/route.ts:14-33 | Non-empty selected notes take precedence over board data. The context is "" iff neither is non-empty |
| AiRoute.SelectedContextEntries | app/api/ai/route.ts:16-22 | The selected context is the header and at most 20 numbered entries of at most 200 characters, joined by newlines |
| AiRoute.BoardContextEntries | app/api/ai/route.ts:23-32 | The board context is the header with the shown count and at most 30 numbered entries of at most 150 characters |
| AiRoute.SelectedContextIgnoresTail | app/api/ai/route.ts:17 | Notes after the 20th do not affect the context |
| AiRoute.ShouldModify | app/api/ai/route.ts:36-38 | True iff the lower-cased prompt contains one of the keywords |
| AiRoute.KeywordInAnyCase | app/api/ai/route.ts:36-38 | A keyword written in any letter case in the prompt triggers board modification |
| AiRoute.CompletionRequestSpec | app/api/ai/route.ts:41-58 | The user message is the prompt. The system prompt is create-notes iff ShouldModify, starts with the intro and contains the context |
| AiRoute.FindFrom | app/api/ai/route.ts:69 | Finds the first occurrence from a position on, or proves that there is none |
| AiRoute.BodyStart | app/api/ai/route.ts:69 | The body starts after the opening fence, skips no backtick, and does not start with whitespace |
| AiRoute.BodyStartExact | app/api/ai/route.ts:69 | The body start is exact: after the fence, a "json" tag directly following it is skipped, then every whitespace character, and skipping stops at the first other character |
| AiRoute.MatchFrom | app/api/ai/route.ts:69 | A body is found iff some fence is closed by a later one. The body runs from after some opening fence up to a later fence; which fence is stated by ExtractFencedLeftmost |
| AiRoute.ExtractFencedLeftmost | app/api/ai/route.ts:69 | As with the regex's leftmost match, the body is taken after the first opening fence that has a closing fence, and no earlier fence has one |
| AiRoute.FirstFence | app/api/ai/route.ts:69 | The fence chosen is closable, and no opening fence before it is |
| AiRoute.ExtractFenced | app/api/ai/route.ts:69-72 | There is no match exactly when no fence is followed by a second fence |
| AiRoute.ExtractFencedBody | app/api/ai/route.ts:69-71 | The extracted body contains no fence and does not start with whitespace |
| AiRoute.MatchFromFirst | app/api/ai/route.ts:69 | The match is the text between the body start of the fence FirstFence chooses and the next fence after it |
| AiRoute.Respond | app/api/ai/route.ts:65-91 | The reply is create_notes iff modifying and the parse gives action "create_notes" with a notes array, and then carries those notes. Otherwise it is the text reply |
| AiRoute.AnalyzeRepliesText | app/api/ai/route.ts:65-91 | Without modification the reply is the text, whatever the parser does |
| AiRoute.FencedBodyDecides | app/api/ai/route.ts:68-75 | With a fence, only the fenced body reaches the parser |
| AiRoute.ErrorResponse | app/api/ai/route.ts:96-112 | 429 with the rate-limit message iff the message mentions rate_limit_exceeded or the status is 429. Otherwise 500 with the message or the default |
| AiRoute.Post | app/api/ai/route.ts:45-113 | It is an error reply iff the call threw. A missing answer counts as "" |
| AiCommandBar.ContextIds | components/AICommandBar.tsx:49-54 | selectedItemIds if non-empty, else the selected item if set, else empty |
| AiCommandBar.SelectedNotes | components/AICommandBar.tsx:56-58 | Exactly the notes whose id is a context id, in board order, with every copy kept |
| AiCommandBar.RequestFor | components/AICommandBar.tsx:64-68 | Selected notes are sent iff some exist, and board data iff none do |
| AiCommandBar.RequestContext | components/AICommandBar.tsx:49-68 | The route builds its context from the selected notes when there are any, and from the whole board otherwise |
| AiCommandBar.ContextIndicator | components/AICommandBar.tsx:182-197 | The indicator is shown iff there are context ids |
| AiCommandBar.ContextIndicatorSpec | components/AICommandBar.tsx:182-197 | States the count, and adds "(limited to 20)" exactly when more than 20 ids are selected |
| AiCommandBar.ErrorTextSpec | components/AICommandBar.tsx:73-88 | An error is shown iff the fetch threw or the reply is an error. The text is never empty, and the server's text is used when given |
| AiCommandBar.CommandBar.constructor | components/AICommandBar.tsx:21-23 | The bar starts closed and idle, with no input, response or error |
| AiCommandBar.CommandBar.Submit | components/AICommandBar.tsx:39-68 | A blank input or a running request does nothing. Otherwise the bar goes into loading, clears response and error, and sends the request for the selected notes |
| AiCommandBar.CommandBar.Finish | components/AICommandBar.tsx:70-90 | Loading ends. A create_notes reply hands its notes on and closes the bar with the input cleared. A text reply becomes the response, and an error sets the error |
| AiCommandBar.CommandBar.Close | components/AICommandBar.tsx:93-98 | Clears response, error and input and closes the bar |
| AiCommandBar.CommandBar.Escape | components/AICommandBar.tsx:26-37 | While open, clears response and error and closes the bar, keeping the input. When closed it does nothing |
| BoardCard.DaysFromHours | components/BoardCard.tsx:18-20 | floor(floor(d / 1 h) / 24) equals floor(d / 1 day) |
| BoardCard.FormatDateSpec | components/BoardCard.tsx:15-26 | Under 1 h, including the future, gives "Just now". Under 1 day gives "{h}h ago" with 1 ≤ h < 24. Under 1 week gives "{d}d ago" with 1 ≤ d < 7. Otherwise the locale date |
| BoardCard.InitialSpec | components/BoardCard.tsx:37 | The thumbnail letter is the first character of the title, upper-cased. It is absent for an empty title |
| ContextMenu.MenuItemsSpec | components/ContextMenu.tsx:49-91 | Delete comes first, with "Del" and danger, and nothing else is danger. Duplicate is listed iff given, right after Delete. Change Color iff given, last. No action repeats |
| ContextMenu.DeleteLabelSpec | components/ContextMenu.tsx:19 | "Delete N items" when the count is > 1, "Delete" otherwise. The count defaults to 1 |
| ContextMenu.Click | components/ContextMenu.tsx:57-60 | A click runs one callback and then onClose |
| ContextMenu.ClickSpec | components/ContextMenu.tsx:49-91 | Each item runs exactly its own callback, then closes |
| ContextMenu.ShownShortcutSpec | components/ContextMenu.tsx:49-91 | Only Change Color shows no shortcut |
| ContextMenu.CanvasMenu | components/Canvas.tsx:781-788 | The canvas's menu is the single "Delete" item, which deletes and then closes |

## Left out

- Supabase reads, writes and the realtime channel. These are remote I/O.
  Writes are logged as intended writes in `Remote.WriteLog`. The ids the
  database returns are method inputs. Realtime events would be calls to
  the store methods.
- Gesture libraries (`@dnd-kit` sensors, `useDrag`). The offsets, deltas
  and `active`/`last` flags they deliver are method inputs.
- IEEE floating point and NaN. Coordinates and zoom are exact reals.
- The trigonometric control points of the connector curve and the SVG
  `pathData` string. The control points are opaque inputs to the
  bounding-box lemma.
- The degenerate connector cases, where the code divides by zero. These
  are equal centres and notes of zero width or height. They are excluded
  by `ConnectionView.Drawable`.
- Store.BoardStore.ZoomViewport: requires a non-zero zoom. The source
  divides by the old zoom, and the store keeps the zoom positive from the
  start. `SetViewport` states when that stays so.
- The Groq chat call and its model parameters, `JSON.parse`, and the
  regular-expression engine:
  - the parser is a function parameter returning an abstract `Parsed`
    value;
  - the fence regex is modelled by a direct search.
- AiRoute.Post: the model's answer is an input. Console logging is left
  out. The request is typed, so a malformed body, a non-string `prompt`
  or a note without `content` cannot be expressed. In the source these
  also throw inside the same `try` (`app/api/ai/route.ts:10-33`) and give
  a 500. "An error reply iff the call threw" therefore covers well-formed
  requests only. The command bar, the route's only caller, always sends
  one (`components/AICommandBar.tsx:61-69`).
- `Date` and `toLocaleDateString`. Instants are integer milliseconds, and
  the locale text is a parameter of `FormatDate`.
- Number-to-text formatting of reals in `pointsToPath`. It is a function
  parameter.
- Unicode case mapping beyond ASCII, and UTF-16 code units. Strings are
  sequences of characters, and lower-casing maps A–Z only.
- React batching and re-rendering. State updates are immediate. Stale
  closures are modelled only where they change behaviour, as in the resize
  commit.
- Canvas.CanvasController.TextDragEnd, PenDrawEnd, DeleteItem and
  CreateObject (with HandleCanvasClick through it), and
  NoteView.NoteGesture.Click: each runs atomically, including its remote
  write. In the source they reset, delete, switch the tool back or clear
  the anchor only after awaiting that write:
  - TextDragEnd, PenDrawEnd and DeleteItem: `components/Canvas.tsx:332-355`,
    `393-410` and `176-185`;
  - CreateObject: `components/Canvas.tsx:239-248`;
  - Click: `components/Note.tsx:110-123`.

  An event that arrives before the reply is not captured:
  - a mouseleave or second mouseup (both call both end handlers,
    `components/Canvas.tsx:498-510`) would send a second identical insert;
  - a second Delete press would send a second delete;
  - a second click in note mode (as in a double-click) would find the tool
    still "note" and insert a second note, where the model finds "select"
    and only clears the selection;
  - a second shift-click on another note would find the anchor still set
    and insert a second connection from it.
- Canvas.CanvasController.PanStart keeps one pan origin `panLast`. The
  source adds a fresh pair of document listeners on every background press
  (`components/Canvas.tsx:423-444`), each with its own `lastX`/`lastY`.
  While one pair's mouseup has not yet arrived, a second press would add a
  second pair, and each move would then pan once per pair. The model has
  at most one pan running.
- Remote.InsertedNote, InsertedStroke and InsertedConnection: the database
  is taken to return the inserted fields under the new id. The row it
  actually returns is not modelled.
- `isConnectionMode` and the other styling-only state. Also theme
  toggling (`store.ts:110-119`), JSX, styles, the spinner and the
  toolbar.
- The command bar's Quick Examples buttons, which only set the input text.
- ContextMenu.MenuItems: the count is an unbounded integer here.
- The note component's `onDoubleClick` textarea focus. It is DOM focus
  handling.
- The connector's context-menu handler. The canvas passes no
  `onContextMenu` to connectors (`components/Canvas.tsx:664`), so a
  right-click on a connector opens nothing.
- Auth routes, modals, pages and middleware. They are outside the canvas
  engine.
