/** The AI endpoint (app/api/ai/route.ts): it builds a context from the notes
    it is sent, chooses a system prompt by keyword, and turns the model's
    reply (or the error raised on the way) into the JSON it answers with.
    The language model and `JSON.parse` are foreign: the model's text and the
    parser arrive as inputs. */
module AiRoute {
  import opened Types
  import opened Text
  import opened AiPrompts

  // ---------------------------------------------------------------------
  // Context

  /** `notes.slice(0, count).map(n => n.content.substring(0, len))`. */
  function Limit(notes: seq<Note>, count: nat, len: nat): (r: seq<string>)
    ensures |r| == if |notes| <= count then |notes| else count
    ensures forall i :: 0 <= i < |r| ==> r[i] == Take(notes[i].content, len)
  {
    if |notes| == 0 || count == 0 then []
    else [Take(notes[0].content, len)] + Limit(notes[1..], count - 1, len)
  }

  /** `items.map((c, i) => `${i + 1}. ${c}`)`, numbering from `from + 1`. */
  function Numbered(items: seq<string>, from: nat): (r: seq<string>)
    ensures |r| == |items|
    ensures forall i :: 0 <= i < |r| ==> r[i] == NatToString(from + i + 1) + ". " + items[i]
  {
    if |items| == 0 then [] else [NatToString(from + 1) + ". " + items[0]] + Numbered(items[1..], from + 1)
  }

  const SelectedHeader := "Selected notes:\n"

  function SelectedContext(sel: seq<Note>): string {
    SelectedHeader + Join("\n", Numbered(Limit(sel, 20, 200), 0))
  }

  function BoardHeader(shown: nat): string {
    "All board notes (showing first " + NatToString(shown) + "):\n"
  }

  function BoardContext(board: seq<Note>): string {
    var limited := Limit(board, 30, 150);
    BoardHeader(|limited|) + Join("\n", Numbered(limited, 0))
  }

  /** `x && x.length > 0` for an optional array. */
  predicate NonEmpty(notes: Option<seq<Note>>) {
    notes.Some? && |notes.value| > 0
  }

  /** The context string: selected notes win over board data, and with
      neither the context is empty. */
  function BuildContext(selectedNotes: Option<seq<Note>>, boardData: Option<seq<Note>>): (r: string)
    ensures NonEmpty(selectedNotes) ==> StartsWith(r, SelectedHeader)
    ensures !NonEmpty(selectedNotes) && NonEmpty(boardData) ==> StartsWith(r, "All board notes (showing first ")
    ensures r == "" <==> !NonEmpty(selectedNotes) && !NonEmpty(boardData)
  {
    if NonEmpty(selectedNotes) then
      AppendStartsWith(SelectedHeader, Join("\n", Numbered(Limit(selectedNotes.value, 20, 200), 0)));
      SelectedContext(selectedNotes.value)
    else if NonEmpty(boardData) then
      var limited := Limit(boardData.value, 30, 150);
      var h := "All board notes (showing first ";
      assert BoardContext(boardData.value) == h + (NatToString(|limited|) + "):\n" + Join("\n", Numbered(limited, 0)));
      AppendStartsWith(h, NatToString(|limited|) + "):\n" + Join("\n", Numbered(limited, 0)));
      BoardContext(boardData.value)
    else ""
  }

  /** The selected-notes context lists at most 20 entries, the i-th being
      "i. " and the first 200 characters of the i-th note; board data is
      ignored. */
  lemma SelectedContextEntries(sel: seq<Note>, boardData: Option<seq<Note>>)
    requires |sel| > 0
    ensures var es := Numbered(Limit(sel, 20, 200), 0);
      && BuildContext(Some(sel), boardData) == SelectedHeader + Join("\n", es)
      && |es| == (if |sel| <= 20 then |sel| else 20)
      && forall i :: 0 <= i < |es| ==>
           es[i] == NatToString(i + 1) + ". " + Take(sel[i].content, 200)
           && |Take(sel[i].content, 200)| <= 200
  {
  }

  /** The board context lists at most 30 entries of at most 150 characters,
      and its header states exactly how many are listed. */
  lemma BoardContextEntries(board: seq<Note>, selectedNotes: Option<seq<Note>>)
    requires |board| > 0 && !NonEmpty(selectedNotes)
    ensures var es := Numbered(Limit(board, 30, 150), 0);
      && BuildContext(selectedNotes, Some(board)) == BoardHeader(|es|) + Join("\n", es)
      && |es| == (if |board| <= 30 then |board| else 30)
      && forall i :: 0 <= i < |es| ==>
           es[i] == NatToString(i + 1) + ". " + Take(board[i].content, 150)
           && |Take(board[i].content, 150)| <= 150
  {
  }

  /** Only the first `count` notes reach the context. */
  lemma LimitPrefix(notes: seq<Note>, count: nat, len: nat)
    requires |notes| >= count
    ensures Limit(notes, count, len) == Limit(notes[..count], count, len)
  {
    var l1 := Limit(notes, count, len);
    var l2 := Limit(notes[..count], count, len);
    forall i | 0 <= i < |l1|
      ensures l1[i] == l2[i]
    {
      assert notes[..count][i] == notes[i];
    }
  }

  /** So a selection of more than 20 notes builds the same context as its first 20. */
  lemma SelectedContextIgnoresTail(sel: seq<Note>)
    requires |sel| > 20
    ensures SelectedContext(sel) == SelectedContext(sel[..20])
  {
    LimitPrefix(sel, 20, 200);
  }

  // ---------------------------------------------------------------------
  // Prompt choice

  /** `ks.some(k => s.includes(k))`. */
  function AnyContained(s: string, ks: seq<string>): (r: bool)
    ensures r <==> exists i :: 0 <= i < |ks| && Contains(s, ks[i])
  {
    if |ks| == 0 then false
    else if Contains(s, ks[0]) then true
    else
      var r := AnyContained(s, ks[1..]);
      assert forall i :: 1 <= i < |ks| ==> ks[i] == ks[1..][i - 1];
      r
  }

  /** `shouldModifyBoard`: the lower-cased prompt contains a keyword. */
  function ShouldModify(prompt: string): (r: bool)
    ensures r <==> exists i :: 0 <= i < |ModifyKeywords| && Contains(Lower(prompt), ModifyKeywords[i])
  {
    AnyContained(Lower(prompt), ModifyKeywords)
  }

  /** A keyword written in any letter case anywhere in the prompt makes it a
      board-modifying request. */
  lemma KeywordInAnyCase(prompt: string, w: string, i: nat)
    requires i < |ModifyKeywords| && Lower(w) == ModifyKeywords[i] && Contains(prompt, w)
    ensures ShouldModify(prompt)
  {
    LowerPreservesContains(prompt, w);
  }

  /** The two messages sent to the model. */
  datatype Completion = Completion(system: string, user: string)

  function CompletionRequest(prompt: string, selectedNotes: Option<seq<Note>>, boardData: Option<seq<Note>>): Completion {
    var context := BuildContext(selectedNotes, boardData);
    Completion(if ShouldModify(prompt) then CreateNotes(context) else Analyze(context), prompt)
  }

  lemma EndsWithContains(s: string, t: string)
    requires EndsWith(s, t)
    ensures Contains(s, t)
  {
    assert OccursAt(s, t, |s| - |t|);
    ContainsIff(s, t);
  }

  /** The user message is the prompt; the system message is the note-creating
      template exactly for board-modifying prompts, always opens with the
      shared introduction, and carries the context. */
  lemma CompletionRequestSpec(prompt: string, selectedNotes: Option<seq<Note>>, boardData: Option<seq<Note>>)
    ensures var c := CompletionRequest(prompt, selectedNotes, boardData);
      var context := BuildContext(selectedNotes, boardData);
      && c.user == prompt
      && (ShouldModify(prompt) <==> StartsWith(c.system, CreateNotesHead))
      && StartsWith(c.system, Intro)
      && Contains(c.system, context)
  {
    var context := BuildContext(selectedNotes, boardData);
    var c := CompletionRequest(prompt, selectedNotes, boardData);
    SharedIntro(context);
    CreateNotesContext(context);
    AnalyzeContext(context);
    if ShouldModify(prompt) {
      EndsWithContains(c.system, context);
    } else {
      AnalyzeIsNotCreateNotes(context);
      if context == "" {
        assert OccursAt(c.system, "", 0);
        ContainsIff(c.system, context);
      }
    }
  }

  // ---------------------------------------------------------------------
  // Code fence extraction: /```(?:json)?\s*([\s\S]*?)```/

  const Fence := "```"

  /** The first occurrence of t at or after `from`. */
  function FindFrom(s: string, t: string, from: nat): (r: Option<nat>)
    ensures r.Some? ==> from <= r.value && OccursAt(s, t, r.value)
    ensures r.Some? ==> forall m :: from <= m < r.value ==> !OccursAt(s, t, m)
    ensures r.None? ==> forall m :: from <= m ==> !OccursAt(s, t, m)
    decreases |s| - from
  {
    if from + |t| > |s| then None
    else if s[from..from + |t|] == t then Some(from)
    else FindFrom(s, t, from + 1)
  }

  /** Where `\s*` stops after position j. */
  function SkipSpace(s: string, j: nat): (r: nat)
    requires j <= |s|
    ensures j <= r <= |s|
    ensures forall m :: j <= m < r ==> IsJsSpace(s[m])
    ensures r < |s| ==> !IsJsSpace(s[r])
    decreases |s| - j
  {
    if j < |s| && IsJsSpace(s[j]) then SkipSpace(s, j + 1) else j
  }

  /** Just past the opening fence at i and the `json` tag, if the tag follows it. */
  function TagEnd(s: string, i: nat): nat {
    if i + 7 <= |s| && s[i + 3..i + 7] == "json" then i + 7 else i + 3
  }

  /** Where the captured body starts after an opening fence at i: past the
      optional `json` tag and the white space that follows. */
  function BodyStart(s: string, i: nat): (r: nat)
    requires OccursAt(s, Fence, i)
    ensures i + 3 <= r <= |s|
    ensures forall m :: i + 3 <= m < r ==> s[m] != '`'
    ensures r < |s| ==> !IsJsSpace(s[r])
  {
    var j := if i + 7 <= |s| && s[i + 3..i + 7] == "json" then i + 7 else i + 3;
    assert forall m :: i + 3 <= m < j ==> s[m] == s[i + 3..i + 7][m - i - 3];
    SkipSpace(s, j)
  }

  /** The body start is pinned down: exactly the optional `json` tag and then
      white space are skipped, and skipping stops at the first other character. */
  lemma BodyStartExact(s: string, i: nat)
    requires OccursAt(s, Fence, i)
    ensures var r := BodyStart(s, i);
      && TagEnd(s, i) <= r
      && (forall m :: TagEnd(s, i) <= m < r ==> IsJsSpace(s[m]))
      && (r < |s| ==> !IsJsSpace(s[r]))
  {
    assert BodyStart(s, i) == SkipSpace(s, TagEnd(s, i));
  }

  lemma OccursAtHead(s: string, t: string, k: int)
    requires OccursAt(s, t, k) && |t| > 0
    ensures s[k] == t[0]
  {
    assert s[k..k + |t|][0] == s[k];
  }

  /** The leftmost match, trying opening fences from i on: the body runs to
      the first closing fence after it (the lazy `*?`). */
  function MatchFrom(s: string, i: nat): (r: Option<string>)
    ensures r.Some? ==> exists o, b, k ::
      && i <= o && OccursAt(s, Fence, o) && b == BodyStart(s, o) && b <= k && OccursAt(s, Fence, k)
      && r.value == s[b..k]
    ensures r.None? ==> forall o, k :: i <= o && o + 3 <= k && OccursAt(s, Fence, o) ==> !OccursAt(s, Fence, k)
    decreases |s| - i
  {
    if i + 3 > |s| then
      assert forall o :: i <= o ==> !OccursAt(s, Fence, o);
      None
    else if OccursAt(s, Fence, i) then
      var b := BodyStart(s, i);
      match FindFrom(s, Fence, b)
      case Some(k) => Some(s[b..k])
      case None =>
        var r := MatchFrom(s, i + 1);
        assert forall k :: i + 3 <= k && OccursAt(s, Fence, k) ==> b <= k by {
          forall k | i + 3 <= k && OccursAt(s, Fence, k)
            ensures b <= k
          {
            OccursAtHead(s, Fence, k);
          }
        }
        r
    else
      MatchFrom(s, i + 1)
  }

  /** `response.match(/```(?:json)?\s*([\s\S]*?)```/)`, giving the captured body. */
  function ExtractFenced(s: string): (r: Option<string>)
    ensures r.None? <==> forall o, k :: o + 3 <= k && OccursAt(s, Fence, o) ==> !OccursAt(s, Fence, k)
  {
    MatchFrom(s, 0)
  }

  /** A body found is the text between an opening fence (with its optional
      tag and the white space after it) and the first closing fence: it
      contains no fence and does not start with white space. */
  lemma ExtractFencedBody(s: string)
    requires ExtractFenced(s).Some?
    ensures var body := ExtractFenced(s).value;
      && !Contains(body, Fence)
      && (|body| > 0 ==> !IsJsSpace(body[0]))
  {
    var o := FirstFence(s, 0);
    var b := BodyStart(s, o);
    MatchFromFirst(s, 0, o);
    var k := FindFrom(s, Fence, b).value;
    NoFenceBefore(s, b, k);
  }

  /** As with the regex's leftmost match: the body found follows the first
      opening fence that has a closing fence after it. */
  lemma ExtractFencedLeftmost(s: string)
    requires ExtractFenced(s).Some?
    ensures var o := FirstFence(s, 0);
      && Closable(s, o)
      && ExtractFenced(s).value == s[BodyStart(s, o)..FindFrom(s, Fence, BodyStart(s, o)).value]
      && forall o' :: 0 <= o' < o ==> !Closable(s, o')
  {
    MatchFromFirst(s, 0, FirstFence(s, 0));
  }

  /** Text that ends at the first fence after b holds no fence. */
  lemma NoFenceBefore(s: string, b: nat, k: nat)
    requires FindFrom(s, Fence, b) == Some(k)
    ensures !Contains(s[b..k], Fence)
  {
    ContainsIff(s[b..k], Fence);
    forall m | OccursAt(s[b..k], Fence, m)
      ensures OccursAt(s, Fence, b + m) && b <= b + m < k
    {
      SliceOccurs(s, b, k, Fence, m);
    }
  }

  /** An occurrence inside a slice is an occurrence in the whole string. */
  lemma SliceOccurs(s: string, b: nat, k: nat, t: string, m: int)
    requires b <= k <= |s| && OccursAt(s[b..k], t, m)
    ensures OccursAt(s, t, b + m) && b + m + |t| <= k
  {
    var u := s[b..k];
    assert 0 <= m && m + |t| <= |u| && u[m..m + |t|] == t;
    forall j | 0 <= j < |t| ensures s[b + m + j] == t[j] {
      assert u[m + j] == s[b + m + j];
      assert u[m..m + |t|][j] == u[m + j];
    }
    assert s[b + m..b + m + |t|] == t;
  }

  /** An opening fence at o whose body is followed by a closing fence. */
  predicate Closable(s: string, o: nat) {
    OccursAt(s, Fence, o) && FindFrom(s, Fence, BodyStart(s, o)).Some?
  }

  /** The first closable opening fence at or after i, when a match exists from i. */
  function FirstFence(s: string, i: nat): (o: nat)
    requires MatchFrom(s, i).Some?
    ensures i <= o && Closable(s, o)
    ensures forall o' :: i <= o' < o ==> !Closable(s, o')
    decreases |s| - i
  {
    if Closable(s, i) then i
    else FirstFence(s, i + 1)
  }

  /** A position that is not a closable fence is passed over. */
  lemma MatchFromSkips(s: string, i: nat)
    requires !Closable(s, i)
    ensures MatchFrom(s, i) == MatchFrom(s, i + 1)
  {
  }

  lemma {:induction false} MatchFromFirst(s: string, i: nat, o: nat)
    requires MatchFrom(s, i).Some? && o == FirstFence(s, i)
    ensures FindFrom(s, Fence, BodyStart(s, o)).Some?
    ensures MatchFrom(s, i).value == s[BodyStart(s, o)..FindFrom(s, Fence, BodyStart(s, o)).value]
    decreases |s| - i
  {
    if Closable(s, i) {
    } else {
      assert MatchFrom(s, i) == MatchFrom(s, i + 1) by { MatchFromSkips(s, i); }
      MatchFromFirst(s, i + 1, o);
    }
  }

  // ---------------------------------------------------------------------
  // Reply

  /** A note the model proposes. */
  datatype Draft = Draft(content: string, color: string)

  /** What `JSON.parse` gives, as far as the route looks at it: a failure, or
      a value with a string `action` and an array `notes` when present. */
  datatype Parsed = Unparseable | Parsed(action: Option<string>, notes: Option<seq<Draft>>)

  /** The JSON the route answers with. */
  datatype Reply =
    | CreateNotesReply(notes: seq<Draft>)
    | TextReply(content: string)
    | ErrorReply(status: int, error: string)

  /** The text handed to the parser: the fenced body if there is one. */
  function JsonText(response: string): string {
    match ExtractFenced(response)
    case Some(body) => body
    case None => response
  }

  predicate IsCreateNotes(p: Parsed) {
    p.Parsed? && p.action == Some("create_notes") && p.notes.Some?
  }

  /** The reply to a model response. */
  function Respond(prompt: string, response: string, parse: string -> Parsed): (r: Reply)
    ensures r.CreateNotesReply? <==> ShouldModify(prompt) && IsCreateNotes(parse(JsonText(response)))
    ensures r.CreateNotesReply? ==> r.notes == parse(JsonText(response)).notes.value
    ensures !r.CreateNotesReply? ==> r == TextReply(response)
  {
    if ShouldModify(prompt) then
      var parsed := parse(JsonText(response));
      if IsCreateNotes(parsed) then CreateNotesReply(parsed.notes.value) else TextReply(response)
    else TextReply(response)
  }

  /** A question that is not board-modifying never consults the parser. */
  lemma AnalyzeRepliesText(prompt: string, response: string, p1: string -> Parsed, p2: string -> Parsed)
    requires !ShouldModify(prompt)
    ensures Respond(prompt, response, p1) == Respond(prompt, response, p2) == TextReply(response)
  {
  }

  /** With a code fence present, only its body is parsed: two parsers that
      agree on the body give the same reply. */
  lemma FencedBodyDecides(prompt: string, response: string, body: string, p1: string -> Parsed, p2: string -> Parsed)
    requires ExtractFenced(response) == Some(body) && p1(body) == p2(body)
    ensures Respond(prompt, response, p1) == Respond(prompt, response, p2)
  {
  }

  /** What was caught: its `message` and `status` when present. */
  datatype Failure = Failure(message: Option<string>, status: Option<int>)

  const RateLimitMessage := "AI rate limit reached. Please try again later or use a shorter prompt."
  const DefaultErrorMessage := "Failed to process AI request"

  function IsRateLimit(e: Failure): bool {
    (e.message.Some? && Contains(e.message.value, "rate_limit_exceeded")) || e.status == Some(429)
  }

  /** The reply for a caught error. */
  function ErrorResponse(e: Failure): (r: Reply)
    ensures r.ErrorReply? && (r.status == 429 || r.status == 500) && r.error != ""
    ensures r.status == 429 <==> IsRateLimit(e)
    ensures r.status == 429 ==> r.error == RateLimitMessage
    ensures r.status == 500 ==> r.error == (if Truthy(e.message) then e.message.value else DefaultErrorMessage)
  {
    if IsRateLimit(e) then ErrorReply(429, RateLimitMessage)
    else ErrorReply(500, if Truthy(e.message) then e.message.value else DefaultErrorMessage)
  }

  /** The call to the model: its reply's text (`choices[0]?.message?.content`), or what it threw. */
  datatype Outcome = Answered(content: Option<string>) | Threw(failure: Failure)

  /** The whole handler, given what the model call did. */
  function Post(prompt: string, outcome: Outcome, parse: string -> Parsed): (r: Reply)
    ensures r.ErrorReply? <==> outcome.Threw?
    ensures outcome.Answered? && !r.CreateNotesReply? ==>
              r == TextReply(if Truthy(outcome.content) then outcome.content.value else "")
  {
    match outcome
    case Threw(e) => ErrorResponse(e)
    case Answered(content) => Respond(prompt, if Truthy(content) then content.value else "", parse)
  }
}
