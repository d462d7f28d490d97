/** The AI command bar (components/AICommandBar.tsx): which notes a request
    carries, the request it sends, and the bar's state across a submission,
    its close button and the Escape key. The request is asynchronous: a
    submission is split into `Submit` (up to the fetch) and `Finish` (what
    the fetch gave back). */
module AiCommandBar {
  import opened Types
  import opened SeqOps
  import opened Text
  import opened AiRoute

  /** The ids used as context: the multi-selection if any, else the single
      selection if set, else none. */
  function ContextIds(selectedItemIds: seq<string>, selectedItemId: Option<string>): (r: seq<string>)
    ensures |r| == 0 <==> |selectedItemIds| == 0 && !Truthy(selectedItemId)
    ensures |selectedItemIds| > 0 ==> r == selectedItemIds
    ensures |selectedItemIds| == 0 ==> forall k :: k in r <==> selectedItemId == Some(k) && k != ""
  {
    if |selectedItemIds| > 0 then selectedItemIds
    else if Truthy(selectedItemId) then [selectedItemId.value]
    else []
  }

  /** `notes.filter(n => ids.includes(n.id))`: the notes chosen by the ids,
      each as often as on the board, in board order. */
  function SelectedNotes(notes: seq<Note>, ids: seq<string>): (r: seq<Note>)
    ensures IsSubseq(r, notes)
    ensures forall i :: 0 <= i < |r| ==> r[i].id in ids
    ensures forall n :: n in notes && n.id in ids ==> n in r
    ensures forall k :: Count(r, NoteId, k) == if k in ids then Count(notes, NoteId, k) else 0
  {
    if |notes| == 0 then []
    else
      var rest := SelectedNotes(notes[1..], ids);
      if notes[0].id in ids then
        assert ([notes[0]] + rest)[1..] == rest;
        assert forall n :: n in notes ==> n == notes[0] || n in notes[1..];
        [notes[0]] + rest
      else
        rest
  }

  /** The body posted to the AI endpoint. */
  datatype AiRequest = AiRequest(prompt: string, boardData: Option<seq<Note>>, selectedNotes: Option<seq<Note>>)

  function RequestFor(input: string, notes: seq<Note>, selected: seq<Note>): (r: AiRequest)
    ensures r.prompt == input
    ensures r.selectedNotes.Some? <==> |selected| > 0
    ensures r.boardData.Some? <==> |selected| == 0
    ensures r.selectedNotes.Some? ==> r.selectedNotes.value == selected
    ensures r.boardData.Some? ==> r.boardData.value == notes
  {
    AiRequest(input,
      if |selected| == 0 then Some(notes) else None,
      if |selected| > 0 then Some(selected) else None)
  }

  /** What the endpoint builds from such a request: the selection when there
      is one, otherwise the whole board. */
  lemma RequestContext(input: string, notes: seq<Note>, ids: seq<string>)
    ensures var sel := SelectedNotes(notes, ids);
      var r := RequestFor(input, notes, sel);
      BuildContext(r.selectedNotes, r.boardData)
        == if |sel| > 0 then SelectedContext(sel)
           else if |notes| > 0 then BoardContext(notes)
           else ""
  {
  }

  /** The "Using … as context" line shown under the input, if any. */
  function ContextIndicator(selectedItemIds: seq<string>, selectedItemId: Option<string>): (r: Option<string>)
    ensures r.Some? <==> |ContextIds(selectedItemIds, selectedItemId)| > 0
  {
    if |selectedItemIds| > 0 || Truthy(selectedItemId) then Some(IndicatorText(|selectedItemIds|)) else None
  }

  /** The line's text for `many` multi-selected ids (0 when only the single
      selection is used). */
  function IndicatorText(many: nat): string {
    "Using "
      + (if many > 0 then NatToString(many) + " selected items" else "1 selected item")
      + " as context"
      + (if many > 20 then " (limited to 20)" else "")
  }

  /** The line names the number of context ids and says "(limited to 20)"
      exactly when there are more than 20 of them. */
  lemma ContextIndicatorSpec(selectedItemIds: seq<string>, selectedItemId: Option<string>)
    requires ContextIndicator(selectedItemIds, selectedItemId).Some?
    ensures var text := ContextIndicator(selectedItemIds, selectedItemId).value;
      var n := |ContextIds(selectedItemIds, selectedItemId)|;
      && StartsWith(text, "Using " + NatToString(n) + " selected item")
      && (EndsWith(text, " (limited to 20)") <==> n > 20)
  {
    if |selectedItemIds| > 0 {
      IndicatorMany(|selectedItemIds|);
    } else {
      IndicatorSingle();
    }
  }

  lemma IndicatorMany(n: nat)
    requires n > 0
    ensures StartsWith(IndicatorText(n), "Using " + NatToString(n) + " selected item")
    ensures EndsWith(IndicatorText(n), " (limited to 20)") <==> n > 20
  {
    var head := "Using " + NatToString(n) + " selected item";
    var body := head + "s as context";
    assert IndicatorText(n) == body + (if n > 20 then " (limited to 20)" else "");
    AppendStartsWith(head, "s as context");
    if n > 20 {
      AppendStartsWith(body, " (limited to 20)");
      StartsWithTrans(IndicatorText(n), body, head);
      AppendEndsWith(body, " (limited to 20)");
    } else {
      EndsWithContext(head + "s");
    }
  }

  lemma IndicatorSingle()
    ensures StartsWith(IndicatorText(0), "Using " + NatToString(1) + " selected item")
    ensures !EndsWith(IndicatorText(0), " (limited to 20)")
  {
    var head := "Using " + NatToString(1) + " selected item";
    assert IndicatorText(0) == head + " as context";
    AppendStartsWith(head, " as context");
    EndsWithContext(head);
  }

  lemma EndsWithContext(head: string)
    ensures !EndsWith(head + " as context", " (limited to 20)")
  {
    var s := head + " as context";
    assert s[|s| - 1] == 't';
  }

  /** What the fetch gave back: the endpoint's JSON, or a thrown error's message. */
  datatype FetchResult = Received(reply: Reply) | Threw(message: Option<string>)

  const NoResponseMessage := "Failed to get AI response"
  const FallbackMessage := "Something went wrong"

  /** The error text a failed submission shows. */
  function ErrorText(result: FetchResult): Option<string> {
    match result
    case Received(reply) =>
      if reply.ErrorReply? then Some(if reply.error != "" then reply.error else NoResponseMessage) else None
    case Threw(message) => Some(if Truthy(message) then message.value else FallbackMessage)
  }

  /** Every failure shows a non-empty message, and an endpoint error shows the
      endpoint's own message. */
  lemma ErrorTextSpec(result: FetchResult)
    ensures ErrorText(result).Some? <==> result.Threw? || result.reply.ErrorReply?
    ensures ErrorText(result).Some? ==> ErrorText(result).value != ""
    ensures result.Received? && result.reply.ErrorReply? && result.reply.error != "" ==>
              ErrorText(result) == Some(result.reply.error)
  {
  }

  class CommandBar {
    var isOpen: bool
    var input: string
    var isLoading: bool
    var response: Option<string>
    var error: Option<string>

    constructor ()
      ensures !isOpen && input == "" && !isLoading && response == None && error == None
    {
      isOpen, input, isLoading := false, "", false;
      response, error := None, None;
    }

    /** handleSubmit up to the fetch: nothing happens for blank input or while
        a request is in flight; otherwise the bar starts loading, clears the
        previous answer and sends the selected notes, or the whole board when
        none is selected. */
    method Submit(notes: seq<Note>, selectedItemId: Option<string>, selectedItemIds: seq<string>)
      returns (sent: Option<AiRequest>)
      modifies this
      ensures Trim(old(input)) == "" || old(isLoading) ==> sent == None && unchanged(this)
      ensures Trim(old(input)) != "" && !old(isLoading) ==>
        && sent == Some(RequestFor(old(input), notes, SelectedNotes(notes, ContextIds(selectedItemIds, selectedItemId))))
        && isLoading && response == None && error == None
        && isOpen == old(isOpen) && input == old(input)
    {
      if Trim(input) == "" || isLoading {
        return None;
      }
      isLoading := true;
      error := None;
      response := None;
      var ids := ContextIds(selectedItemIds, selectedItemId);
      var selected := SelectedNotes(notes, ids);
      sent := Some(RequestFor(input, notes, selected));
    }

    /** handleSubmit after the fetch: created notes are handed on and the bar
        closes with its input cleared; a text answer is shown; a failure shows
        its message. Loading stops in every case. */
    method Finish(result: FetchResult) returns (created: Option<seq<Draft>>)
      modifies this
      ensures !isLoading
      ensures result.Received? && result.reply.CreateNotesReply? ==>
        created == Some(result.reply.notes) && !isOpen && input == ""
        && response == old(response) && error == old(error)
      ensures !(result.Received? && result.reply.CreateNotesReply?) ==>
        created == None && isOpen == old(isOpen) && input == old(input)
      ensures result.Received? && result.reply.TextReply? ==>
        response == Some(result.reply.content) && error == old(error)
      ensures ErrorText(result).Some? ==> error == ErrorText(result) && response == old(response)
    {
      created := None;
      match result {
        case Received(reply) =>
          if reply.ErrorReply? {
            error := ErrorText(result);
          } else if reply.CreateNotesReply? {
            created := Some(reply.notes);
            isOpen := false;
            input := "";
          } else {
            response := Some(reply.content);
          }
        case Threw(_) =>
          error := ErrorText(result);
      }
      isLoading := false;
    }

    /** handleClose: the bar closes and forgets its answer, error and input. */
    method Close()
      modifies this
      ensures !isOpen && response == None && error == None && input == ""
      ensures isLoading == old(isLoading)
    {
      isOpen := false;
      response := None;
      error := None;
      input := "";
    }

    /** Escape while open closes the bar and forgets the answer and error but
        keeps the input; while closed it does nothing. */
    method Escape()
      modifies this
      ensures old(isOpen) ==> !isOpen && response == None && error == None
      ensures !old(isOpen) ==> unchanged(this)
      ensures input == old(input) && isLoading == old(isLoading)
    {
      if isOpen {
        isOpen := false;
        response := None;
        error := None;
      }
    }
  }
}
