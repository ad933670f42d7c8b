/** app/ai/audio_roundup.py: the story texts sent to the model, trimmed to a character
    budget, and the loop that retries with smaller budgets (8000, 4000, then 2000
    characters) while the model's answer fails with an empty or malformed JSON reply. The
    chat call is a parameter: the outcome of asking the model about a list of stories. */
module AudioRoundup {
  import opened Wrappers
  import opened Text
  import opened Seqs
  import Json
  import Generate

  /** `FALLBACK_CONTENT_CHARS`. */
  const FallbackLimits: seq<int> := [8000, 4000, 2000]

  const Ellipsis: char := '…'

  /** `_trim(text, max_chars)`: empty text stays empty and short text is kept; longer text
      is cut to `max_chars - 1` characters (Python slice bounds), right-stripped and
      closed with an ellipsis. */
  function Trim(text: string, maxChars: int): (r: string)
    ensures text == [] ==> r == []
    ensures 0 < |text| <= maxChars ==> r == text
    ensures text != [] && |text| > maxChars ==> r != [] && r[|r| - 1] == Ellipsis && r[..|r| - 1] <= text
    ensures text != [] && |text| > maxChars ==>
      var head := PyTake(text, maxChars - 1);
      r != [] && r[..|r| - 1] <= head
      && (forall i :: |r| - 1 <= i < |head| ==> IsSpace(head[i]))
      && (|r| == 1 || !IsSpace(r[|r| - 2]))
  {
    if text == [] then []
    else if |text| <= maxChars then text
    else RStrip(PyTake(text, maxChars - 1)) + [Ellipsis]
  }

  /** With a positive budget the trimmed text never exceeds it. */
  lemma TrimWithinBudget(text: string, maxChars: int)
    requires maxChars >= 1
    ensures |Trim(text, maxChars)| <= maxChars
  {
    if |text| > maxChars {
      var head := PyTake(text, maxChars - 1);
      assert |RStrip(head)| <= |head| <= maxChars - 1;
    }
  }

  /** A stored article as the roundup reads it: `item.get(...)` of three columns. */
  datatype Item = Item(title: Option<string>, summary: Option<string>, content: Option<string>)

  /** One entry of `stories`. */
  datatype Story = Story(title: Option<string>, summary: string, content: string)

  /** The story of an item under a character budget: the stripped summary; the stripped
      content trimmed to the budget, or the summary when the content is blank. */
  function StoryOf(item: Item, maxChars: int): (s: Story)
    ensures s.title == item.title && s.summary == Strip(item.summary.GetOr([]))
    ensures Strip(item.content.GetOr([])) == [] ==> s.content == s.summary
  {
    var summary := Strip(item.summary.GetOr([]));
    var content := Strip(item.content.GetOr([]));
    Story(item.title, summary, if content != [] then Trim(content, maxChars) else summary)
  }

  /** The story of each item under one budget. */
  function StoryWith(limit: int): Item -> Story {
    (it: Item) => StoryOf(it, limit)
  }

  /** `stories` under one budget: one story per item, in order. */
  function Stories(items: seq<Item>, limit: int): seq<Story> {
    Map(items, StoryWith(limit))
  }

  /** Every story respects the budget unless its content was blank and the summary is
      used instead, and all items are kept, in order. */
  lemma StoriesWithinBudget(items: seq<Item>, maxChars: int)
    requires maxChars >= 1
    ensures var stories := Stories(items, maxChars);
      forall i :: 0 <= i < |items| && Strip(items[i].content.GetOr([])) != [] ==>
           |stories[i].content| <= maxChars
  {
    forall i | 0 <= i < |items| && Strip(items[i].content.GetOr([])) != []
      ensures |Stories(items, maxChars)[i].content| <= maxChars
    {
      TrimWithinBudget(Strip(items[i].content.GetOr([])), maxChars);
    }
  }

  /** A failure the loop retries with the next budget: a `RuntimeError` whose message
      mentions "empty content" or "JSON". */
  predicate Retriable(e: Exc) {
    e.RuntimeError? && (Contains(e.message, "empty content") || Contains(e.message, "JSON"))
  }

  const NoRoundupMessage: string := "Failed to generate audio roundup"

  /** The outcome of trying the budgets in `limits` in order, `last` holding the error
      of the previous attempt: the first answer wins, a failure that is not retriable
      propagates at once, and when every budget failed the last error is raised. */
  function Attempt(items: seq<Item>, limits: seq<int>, chat: seq<Story> -> Result<Json.Json, Exc>,
                   last: Option<Exc>): Result<Json.Json, Exc>
    decreases |limits|
  {
    if limits == [] then Failure(last.GetOr(RuntimeError(NoRoundupMessage)))
    else
      var limit := limits[0];
      match chat(Stories(items, limit))
      case Success(j) => Success(j)
      case Failure(e) =>
        if Retriable(e) then Attempt(items, limits[1..], chat, Some(e)) else Failure(e)
  }

  /** The loop over the budgets of `generate_audio_roundup`. */
  method GenerateAudioRoundup(items: seq<Item>, chat: seq<Story> -> Result<Json.Json, Exc>)
    returns (r: Result<Json.Json, Exc>)
    ensures r == Attempt(items, FallbackLimits, chat, None)
  {
    var lastErr: Option<Exc> := None;
    var i := 0;
    while i < |FallbackLimits|
      invariant 0 <= i <= |FallbackLimits|
      invariant i > 0 ==> lastErr.Some?
      invariant Attempt(items, FallbackLimits, chat, None) == Attempt(items, FallbackLimits[i..], chat, lastErr)
    {
      var maxChars := FallbackLimits[i];
      var stories := BuildStories(items, maxChars);
      var answer := chat(stories);
      assert FallbackLimits[i..][1..] == FallbackLimits[i + 1..];
      if answer.Success? {
        return Success(answer.value);
      }
      lastErr := Some(answer.error);
      var message := if answer.error.RuntimeError? then answer.error.message else [];
      if !(answer.error.RuntimeError? && (Contains(message, "empty content") || Contains(message, "JSON"))) {
        return Failure(answer.error);
      }
      i := i + 1;
    }
    r := Failure(lastErr.value);
  }

  /** The inner loop: one story per item, in order. */
  method BuildStories(items: seq<Item>, maxChars: int) returns (stories: seq<Story>)
    ensures stories == Stories(items, maxChars)
  {
    stories := [];
    var j := 0;
    while j < |items|
      invariant 0 <= j <= |items|
      invariant stories == Stories(items[..j], maxChars)
    {
      MapPrefix(items, j, StoryWith(maxChars));
      var item := items[j];
      var summary := Strip(item.summary.GetOr([]));
      var content := Strip(item.content.GetOr([]));
      if content != [] {
        content := Trim(content, maxChars);
      } else {
        content := summary;
      }
      stories := stories + [Story(item.title, summary, content)];
      j := j + 1;
    }
    assert items[..j] == items;
  }

  /** The answer under the largest budget is returned when there is one. */
  lemma FirstAnswerWins(items: seq<Item>, chat: seq<Story> -> Result<Json.Json, Exc>)
    requires chat(Stories(items, 8000)).Success?
    ensures Attempt(items, FallbackLimits, chat, None) == chat(Stories(items, 8000))
  {
  }

  /** A failure that is not retriable ends the loop with that very failure. */
  lemma OtherFailurePropagates(items: seq<Item>, chat: seq<Story> -> Result<Json.Json, Exc>)
    requires chat(Stories(items, 8000)).Failure? && !Retriable(chat(Stories(items, 8000)).error)
    ensures Attempt(items, FallbackLimits, chat, None) == chat(Stories(items, 8000))
  {
  }

  /** When all three budgets fail retriably, the error of the 2000-character attempt is
      raised. */
  lemma AllBudgetsFail(items: seq<Item>, chat: seq<Story> -> Result<Json.Json, Exc>)
    requires forall k :: 0 <= k < 3 ==> FailedRetriably(chat(Stories(items, FallbackLimits[k])))
    ensures Attempt(items, FallbackLimits, chat, None) == chat(Stories(items, 2000))
  {
    assert FallbackLimits[1..] == [4000, 2000];
    assert FallbackLimits[1..][1..] == [2000];
    assert chat(Stories(items, FallbackLimits[0])).Failure?;
    assert chat(Stories(items, FallbackLimits[1])).Failure?;
    assert chat(Stories(items, FallbackLimits[2])).Failure?;
  }

  /** An attempt that failed in a way the loop retries. */
  predicate FailedRetriably(r: Result<Json.Json, Exc>) {
    r.Failure? && Retriable(r.error)
  }

  /** Any answer is the answer under one of the budgets, every earlier budget having
      failed retriably; an answer is never invented. */
  lemma {:induction false} AnswerFromSomeBudget(items: seq<Item>, limits: seq<int>,
                                                chat: seq<Story> -> Result<Json.Json, Exc>, last: Option<Exc>)
    returns (k: nat)
    requires Attempt(items, limits, chat, last).Success?
    ensures k < |limits| && Attempt(items, limits, chat, last) == chat(Stories(items, limits[k]))
    ensures forall j :: 0 <= j < k ==> FailedRetriably(chat(Stories(items, limits[j])))
    decreases |limits|
  {
    var first := chat(Stories(items, limits[0]));
    if first.Success? {
      k := 0;
    } else {
      AttemptRetries(items, limits, chat, last);
      var k' := AnswerFromSomeBudget(items, limits[1..], chat, Some(first.error));
      k := k' + 1;
      EarlierBudgetsFailed(items, limits, chat, k');
    }
  }

  /** A failed first budget that still leads to an answer was a retriable failure, and the
      answer is the one the remaining budgets give. */
  lemma AttemptRetries(items: seq<Item>, limits: seq<int>,
                       chat: seq<Story> -> Result<Json.Json, Exc>, last: Option<Exc>)
    requires limits != [] && Attempt(items, limits, chat, last).Success?
    requires chat(Stories(items, limits[0])).Failure?
    ensures FailedRetriably(chat(Stories(items, limits[0])))
    ensures Attempt(items, limits, chat, last)
         == Attempt(items, limits[1..], chat, Some(chat(Stories(items, limits[0])).error))
  {
  }

  /** The retriable failures before budget `k' + 1`: the first budget's and those of the
      remaining budgets before their `k'`-th. */
  lemma EarlierBudgetsFailed(items: seq<Item>, limits: seq<int>,
                             chat: seq<Story> -> Result<Json.Json, Exc>, k': nat)
    requires k' + 1 < |limits| && FailedRetriably(chat(Stories(items, limits[0])))
    requires forall j :: 0 <= j < k' ==> FailedRetriably(chat(Stories(items, limits[1..][j])))
    ensures limits[1..][k'] == limits[k' + 1]
    ensures forall j :: 0 <= j < k' + 1 ==> FailedRetriably(chat(Stories(items, limits[j])))
  {
    var fails := l => FailedRetriably(chat(Stories(items, l)));
    ShiftAll(limits, fails, k');
  }

  /** A property of the head and of the first `n` elements of the tail holds of the first
      `n + 1` elements. */
  lemma ShiftAll<T>(s: seq<T>, p: T -> bool, n: nat)
    requires n + 1 < |s| && p(s[0])
    requires forall j :: 0 <= j < n ==> p(s[1..][j])
    ensures forall j :: 0 <= j < n + 1 ==> p(s[j])
  {
    forall j | 0 < j < n + 1
      ensures p(s[j])
    {
      assert s[1..][j - 1] == s[j];
    }
  }

  const PromptHead: string := "You are a podcast writer. Write the script in "

  /** The fixed instructions after the language, sentence by sentence. */
  const PromptSentences: seq<string> := [
    ".",
    "Create a 5-7 minute audio roundup script for two hosts (host_a male, host_b female).",
    "You will receive items with title, summary, and full content.",
    "Use the full content when available (content may be truncated to fit limits).",
    "Structure: open with a fast, punchy teaser rundown of ALL stories (one sentence each) to hook the listener, then cover each story in detail one by one.",
    "Keep the rundown short and clearly separate it from the deep dives.",
    "Return JSON with keys: title, description, tags, dialogue (array of {speaker, text}), duration_seconds, and image_prompt.",
    "title should be short and YouTube-ready.",
    "description should be 2-4 sentences with a clear call-to-action to listen to the full daily podcast.",
    "tags should be an array of 6-12 keywords.",
    "The image_prompt should be a single, vivid sentence for a static podcast thumbnail background (no text or logos).",
    "Keep it concise, current, and engaging."
  ]

  const PromptTail: string := Join(PromptSentences, " ")

  /** `_system_prompt(language)` of the roundup. */
  function SystemPrompt(language: Option<string>): string {
    PromptHead + Generate.LanguageLabel(language) + PromptTail
  }

  /** The roundup prompt names the language right after its fixed head. */
  lemma SystemPromptNamesLanguage(language: Option<string>)
    ensures SliceIs(SystemPrompt(language), |PromptHead|, Generate.LanguageLabel(language))
  {
    LabelSlice(PromptHead, Generate.LanguageLabel(language), PromptTail);
  }

  lemma LabelSlice(head: string, lang: string, tail: string)
    ensures SliceIs(head + lang + tail, |head|, lang)
  {
    assert (head + lang + tail)[|head|..|head| + |lang|] == lang;
  }
}
