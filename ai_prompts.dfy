/** The two system prompts the AI route chooses between and the phrases that
    mark a request as one that should add notes to the board
    (lib/ai-prompts.ts). */
module AiPrompts {
  import opened Text

  /** The sentence both prompts open with. */
  const Intro := "You are an AI assistant that helps users with their flowboard/canvas."

  /** The fixed part of the note-creating prompt, up to where the context goes. */
  const CreateNotesHead := Intro + CreateNotesAfterIntro
  const CreateNotesAfterIntro := " When" +
    " asked to generate, create, or modify content, respond with a JSON array of notes to add to the board.\n"
    + "\n"
    + "Format your response as JSON:\n"
    + "{\n"
    + "  \"action\": \"create_notes\",\n"
    + "  \"notes\": [\n"
    + "    { \"content\": \"Note 1 content\", \"color\": \"#93c5fd\" },\n"
    + "    { \"content\": \"Note 2 content\", \"color\": \"#86efac\" }\n"
    + "  ]\n"
    + "}\n"
    + "\n"
    + "Use these colors for variety: #93c5fd (blue), #86efac (green), #fca5a5 (red), #c4b5fd (violet), #fde047 (yellow), #6ee7b7 (emerald), #9ca3af (gray).\n"
    + "\n"

  /** The analysis prompt's opening paragraph and its closing instruction. */
  const AnalyzeAfterIntro := " Answer" + " questions, provide insights, or help analyze the board content.\n\n"
  const AnalyzeHead := Intro + AnalyzeAfterIntro
  const AnalyzeClosing := "Provide clear, concise answers. If the user asks about the board, analyze the notes provided."

  /** The `${context ? `\n${context}` : ""}` slot of both templates. */
  function ContextSlot(context: string): string {
    if context != "" then "\n" + context else ""
  }

  /** `AI_PROMPTS.createNotes(context)`. */
  function CreateNotes(context: string): string {
    CreateNotesHead + ContextSlot(context)
  }

  /** `AI_PROMPTS.analyze(context)`. */
  function Analyze(context: string): string {
    AnalyzeHead + ContextSlot(context) + "\n\n" + AnalyzeClosing
  }

  /** `AI_PROMPTS.modifyKeywords`. */
  const ModifyKeywords: seq<string> := [
    "create", "generate", "add", "make", "expand", "brainstorm",
    "ideas for", "summarize into", "organize", "write", "list"
  ]

  /** Filling the context slot after any fixed text h. */
  lemma SlotAfter(h: string, context: string)
    ensures context == "" ==> h + ContextSlot(context) == h
    ensures context != "" ==> h + ContextSlot(context) == h + "\n" + context
    ensures StartsWith(h + ContextSlot(context), h)
    ensures EndsWith(h + ContextSlot(context), context)
  {
    AppendStartsWith(h, ContextSlot(context));
    if context != "" {
      assert h + ContextSlot(context) == (h + "\n") + context;
      AppendEndsWith(h + "\n", context);
    }
  }

  /** A non-empty context is appended to the note-creating prompt after one
      newline; an empty one adds nothing. */
  lemma CreateNotesContext(context: string)
    ensures CreateNotes("") == CreateNotesHead
    ensures context != "" ==> CreateNotes(context) == CreateNotes("") + "\n" + context
    ensures StartsWith(CreateNotes(context), CreateNotesHead)
    ensures EndsWith(CreateNotes(context), context)
  {
    SlotAfter(CreateNotesHead, context);
    SlotAfter(CreateNotesHead, "");
  }

  /** The analysis prompt keeps the context between its opening paragraph and
      its closing instruction: it starts with the opening, ends with the
      closing, and a non-empty context occurs right after the opening. */
  lemma AnalyzeContext(context: string)
    ensures StartsWith(Analyze(context), AnalyzeHead)
    ensures EndsWith(Analyze(context), AnalyzeClosing)
    ensures context != "" ==> OccursAt(Analyze(context), context, |AnalyzeHead| + 1)
    ensures context != "" ==> Contains(Analyze(context), context)
  {
    SlotBetween(AnalyzeHead, context, "\n\n", AnalyzeClosing);
  }

  /** The context slot between any fixed head h and any tail sep + closing. */
  lemma SlotBetween(h: string, context: string, sep: string, closing: string)
    ensures StartsWith(h + ContextSlot(context) + sep + closing, h)
    ensures EndsWith(h + ContextSlot(context) + sep + closing, closing)
    ensures context != "" ==> OccursAt(h + ContextSlot(context) + sep + closing, context, |h| + 1)
    ensures context != "" ==> Contains(h + ContextSlot(context) + sep + closing, context)
  {
    var s := h + ContextSlot(context) + sep + closing;
    Between(h, ContextSlot(context), sep + closing);
    assert s == h + ContextSlot(context) + (sep + closing);
    AppendEndsWith(h + ContextSlot(context) + sep, closing);
    if context != "" {
      Between(h + "\n", context, sep + closing);
      assert s == (h + "\n") + context + (sep + closing);
      ContainsIff(s, context);
    }
  }

  /** The middle of a three-part string sits right after the first part. */
  lemma Between(a: string, b: string, c: string)
    ensures StartsWith(a + b + c, a)
    ensures OccursAt(a + b + c, b, |a|)
  {
    assert (a + b + c)[..|a|] == a;
    assert (a + b + c)[|a|..|a| + |b|] == b;
  }

  /** Both prompts begin with the same introductory sentence ... */
  lemma SharedIntro(context: string)
    ensures StartsWith(CreateNotes(context), Intro)
    ensures StartsWith(Analyze(context), Intro)
  {
    CreateNotesContext(context);
    AppendStartsWith(Intro, CreateNotesAfterIntro);
    StartsWithTrans(CreateNotes(context), CreateNotesHead, Intro);
    AnalyzeStartsWithHead(context);
    AppendStartsWith(Intro, AnalyzeAfterIntro);
    StartsWithTrans(Analyze(context), AnalyzeHead, Intro);
  }

  lemma AnalyzeStartsWithHead(context: string)
    ensures StartsWith(Analyze(context), AnalyzeHead)
  {
    AppendStartsWith(AnalyzeHead, ContextSlot(context) + "\n\n" + AnalyzeClosing);
  }

  /** ... and part right after it, so neither prompt reads as the other. */
  lemma AnalyzeIsNotCreateNotes(context: string)
    ensures !StartsWith(Analyze(context), CreateNotesHead)
  {
    var k := |Intro| + 1;
    AppendIndex(Intro, AnalyzeAfterIntro, 1);
    AppendIndex(Intro, CreateNotesAfterIntro, 1);
    AnalyzeStartsWithHead(context);
    StartsWithIndex(Analyze(context), AnalyzeHead, k);
    if StartsWith(Analyze(context), CreateNotesHead) {
      StartsWithIndex(Analyze(context), CreateNotesHead, k);
    }
  }

  lemma CreateNotesIsNotAnalyze(context: string)
    ensures !StartsWith(CreateNotes(context), AnalyzeHead)
  {
    var k := |Intro| + 1;
    AppendIndex(Intro, AnalyzeAfterIntro, 1);
    AppendIndex(Intro, CreateNotesAfterIntro, 1);
    AppendStartsWith(CreateNotesHead, ContextSlot(context));
    StartsWithIndex(CreateNotes(context), CreateNotesHead, k);
    if StartsWith(CreateNotes(context), AnalyzeHead) {
      StartsWithIndex(CreateNotes(context), AnalyzeHead, k);
    }
  }

  /** Eleven non-empty phrases, all in lower case ... */
  lemma KeywordsLowerCase()
    ensures |ModifyKeywords| == 11
    ensures forall i :: 0 <= i < |ModifyKeywords| ==> ModifyKeywords[i] != "" && IsLower(ModifyKeywords[i])
  {
  }

  /** ... so lower-casing leaves them as they are, and testing them against a
      lower-cased prompt ignores the prompt's letter case. */
  lemma KeywordsUnchangedByLower()
    ensures forall i :: 0 <= i < |ModifyKeywords| ==> Lower(ModifyKeywords[i]) == ModifyKeywords[i]
  {
    KeywordsLowerCase();
    forall i | 0 <= i < |ModifyKeywords|
      ensures Lower(ModifyKeywords[i]) == ModifyKeywords[i]
    {
      LowerSpec(ModifyKeywords[i]);
    }
  }
}
