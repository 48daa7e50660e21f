/** `MistralAIClient._build_system_prompt` and `_build_user_prompt`: the two
    messages sent with each generation request. The system prompt escalates
    through three bands with the attempt number; the user prompt restates the
    task and, once there is a history, the learning context and a focus
    block for the coming attempt. */
module Prompts {
  import opened Wrappers
  import opened Text
  import opened Classifier
  import opened LearningContext

  /** The three escalation bands of the system prompt. */
  datatype Band = Baseline | Debugging | Recovery

  /** The band for attempt `n`: baseline for the first attempt, debugging up
      to the third (and for any `n` below 1), expert recovery after that. */
  function BandOf(n: int): (b: Band)
    ensures b == Baseline <==> n == 1
    ensures b == Debugging <==> n != 1 && n <= 3
    ensures b == Recovery <==> n > 3
  {
    if n == 1 then Baseline else if n <= 3 then Debugging else Recovery
  }

  const BasePrompt := "You are an expert Python programmer with strong debugging skills."

  /** Each band's text opens with the blank and indented lines of the
      source's triple-quoted literal. */
  const Opening := "\n            \n"

  const BaselineText := Opening +
    "Generate clean, working Python code based on the user's request.\n" +
    "\n" +
    "Rules:\n" +
    "1. Use only Python standard library (no external packages)\n" +
    "2. Include all necessary imports\n" +
    "3. Add error handling and input validation\n" +
    "4. Include comments explaining the logic\n" +
    "5. Test your code mentally before outputting\n" +
    "6. Return ONLY executable Python code (no markdown formatting)"

  const DebuggingText := Opening +
    "You are now in DEBUGGING MODE. Previous attempts have failed.\n" +
    "\n" +
    "Critical Rules:\n" +
    "1. ANALYZE the previous failures carefully\n" +
    "2. Use ONLY Python standard library modules\n" +
    "3. Add comprehensive error handling with try-except blocks\n" +
    "4. Validate all inputs before processing\n" +
    "5. Use defensive programming practices\n" +
    "6. Add logging/print statements for debugging\n" +
    "7. Test edge cases in your mind\n" +
    "8. Return ONLY executable Python code (no markdown)\n" +
    "\n" +
    "Focus on ROBUST, DEFENSIVE code that handles edge cases."

  const RecoveryText := Opening +
    "You are now in EXPERT RECOVERY MODE. Multiple attempts have failed.\n" +
    "\n" +
    "CRITICAL DEBUGGING PROTOCOL:\n" +
    "1. COMPLETELY REWRITE the approach if similar errors keep occurring\n" +
    "2. Use the SIMPLEST possible solution that works\n" +
    "3. Break complex problems into smaller, testable functions\n" +
    "4. Add extensive error handling and input validation\n" +
    "5. Use only built-in Python functions and standard library\n" +
    "6. Add debug prints to track execution flow\n" +
    "7. Consider alternative algorithms or approaches\n" +
    "8. Return ONLY executable Python code (no markdown)\n" +
    "\n" +
    "PRIORITY: Working code over elegant code. Make it work first."

  function BandText(b: Band): string {
    match b
    case Baseline => BaselineText
    case Debugging => DebuggingText
    case Recovery => RecoveryText
  }

  /** `_build_system_prompt(attempt_number, previous_attempts)`; the history
      is accepted and ignored. */
  function SystemPrompt(n: int, previous: seq<AttemptRecord>): string {
    BasePrompt + BandText(BandOf(n))
  }

  /** The system prompt depends on the attempt number only through its band,
      never on the history, and the three bands give three different
      prompts. */
  lemma SystemPromptBands(n1: int, previous1: seq<AttemptRecord>, n2: int, previous2: seq<AttemptRecord>)
    ensures SystemPrompt(n1, previous1) == SystemPrompt(n2, previous2) <==> BandOf(n1) == BandOf(n2)
  {
    var x, y := BandText(BandOf(n1)), BandText(BandOf(n2));
    BandTextsDiffer(BandOf(n1), BandOf(n2));
    FrontCancels(BasePrompt, x, y);
  }

  /** The three band texts are pairwise different. */
  lemma BandTextsDiffer(b1: Band, b2: Band)
    ensures BandText(b1) == BandText(b2) <==> b1 == b2
  {
    if b1 != b2 {
      assert |BaselineText| != |DebuggingText| && |BaselineText| != |RecoveryText| &&
             |DebuggingText| != |RecoveryText|;
    }
  }

  // ---------------------------------------------------------------------
  // The user prompt.
  // ---------------------------------------------------------------------

  function TaskLine(task: string): string {
    "Original Task: " + task + "\n"
  }

  /** The line that asks for attempt `n`, before the closing sentence. */
  function AttemptLine(n: int): string {
    "\nGenerate working Python code for attempt " + IntToString(n) + ". "
  }

  const Closing := "Focus on CORRECTNESS over elegance."

  function FocusHeader(n: int): string {
    "\n=== ATTEMPT " + IntToString(n) + " FOCUS ===\n"
  }

  /** The fixed directive used from the fourth attempt on. */
  const CriticalText :=
    "CRITICAL: Multiple failures detected. Consider:\n" +
    "- Completely different approach\n" +
    "- Simpler algorithm\n" +
    "- More basic implementation\n" +
    "- Extensive error handling\n"

  /** The restatement of a diagnosis: its category, its issue and its
      suggestions. */
  function ErrorLines(d: Diagnostic): string {
    "Last error category: " + d.category.Label() + "\n" +
    "Specific issue: " + d.specificIssue + "\n" +
    "Suggestions to fix:\n" + Bulleted(d.suggestions, "- ")
  }

  /** The restatement of the last error, or nothing when the last attempt
      left no stderr. */
  function LastErrorText(stderr: string): string {
    if stderr == "" then "" else ErrorLines(CategorizeError(stderr))
  }

  /** The body of the focus block for attempt `n`. */
  function FocusText(n: int, previous: seq<AttemptRecord>): string
    requires previous != []
  {
    if n <= 3 then LastErrorText(previous[|previous| - 1].stderr) else CriticalText
  }

  /** What follows the `Original Task` line once there is a history: the learning
      context of the whole history and the focus block for attempt `n`. */
  function HistoryBlock(n: int, previous: seq<AttemptRecord>): string {
    if previous == [] then "" else LearningContextText(previous) + FocusHeader(n) + FocusText(n, previous)
  }

  /** The user prompt around a given history block. */
  function PromptAround(task: string, block: string, n: int): string {
    TaskLine(task) + block + AttemptLine(n) + Closing
  }

  /** `_build_user_prompt(original_prompt, attempt_number, previous_attempts)`. */
  function UserPrompt(task: string, n: int, previous: seq<AttemptRecord>): string {
    PromptAround(task, HistoryBlock(n, previous), n)
  }

  /** The history block is empty exactly when there is no history. */
  lemma HistoryBlockEmpty(n: int, previous: seq<AttemptRecord>)
    ensures HistoryBlock(n, previous) == "" <==> previous == []
  {
    if previous != [] {
      var context := LearningContextText(previous);
      assert |context| >= |Header|;
    }
  }

  /** Whatever the history block, the user prompt opens with the `Original Task` line
      and closes with the request for attempt `n` and the closing sentence,
      and the block sits between them. */
  lemma PromptFrame(task: string, block: string, n: int)
    ensures var p := PromptAround(task, block, n);
      var tail := AttemptLine(n) + Closing;
      |p| == |TaskLine(task)| + |block| + |tail| &&
      p[..|TaskLine(task)|] == TaskLine(task) &&
      p[|TaskLine(task)|..|TaskLine(task)| + |block|] == block &&
      p[|p| - |tail|..] == tail &&
      p[|p| - |Closing|..] == Closing
  {
    var head, next := TaskLine(task), AttemptLine(n);
    assert PromptAround(task, block, n) == head + block + next + Closing;
    Sandwich(head, block, next, Closing);
  }

  /** The user prompt is just the `Original Task` line and the closing lines exactly
      when there is no history. */
  lemma UserPromptBare(task: string, n: int, previous: seq<AttemptRecord>)
    ensures previous == [] <==> UserPrompt(task, n, previous) == TaskLine(task) + AttemptLine(n) + Closing
  {
    HistoryBlockEmpty(n, previous);
    Bracketed(TaskLine(task), HistoryBlock(n, previous), AttemptLine(n), Closing);
  }

  /** With a history, the block opens with the learning context of the whole
      history and the focus header for attempt `n`; the focus body is the
      fixed directive for `n > 3`, restates the last error for `n <= 3` when
      the last attempt left a stderr, and is empty otherwise. */
  lemma FocusCases(n: int, previous: seq<AttemptRecord>)
    requires previous != []
    ensures var block := HistoryBlock(n, previous);
      var context := LearningContextText(previous);
      |block| >= |context| + |FocusHeader(n)| &&
      block[..|context|] == context &&
      block[|context|..|context| + |FocusHeader(n)|] == FocusHeader(n)
    ensures var last := previous[|previous| - 1].stderr;
      (n > 3 ==> FocusText(n, previous) == CriticalText) &&
      (n <= 3 && last != "" ==> FocusText(n, previous) == ErrorLines(CategorizeError(last))) &&
      (FocusText(n, previous) == "" <==> n <= 3 && last == "")
  {
    HistoryOpens(n, previous);
    FocusBody(n, previous);
  }

  /** With a history, the block opens with the learning context and the
      focus header. */
  lemma HistoryOpens(n: int, previous: seq<AttemptRecord>)
    requires previous != []
    ensures var block := HistoryBlock(n, previous);
      var context := LearningContextText(previous);
      |block| >= |context| + |FocusHeader(n)| &&
      block[..|context|] == context &&
      block[|context|..|context| + |FocusHeader(n)|] == FocusHeader(n)
  {
    var context, header, focus := LearningContextText(previous), FocusHeader(n), FocusText(n, previous);
    assert HistoryBlock(n, previous) == context + header + focus + "";
    Sandwich(context, header, focus, "");
  }

  /** The three cases of the focus body. */
  lemma FocusBody(n: int, previous: seq<AttemptRecord>)
    requires previous != []
    ensures var last := previous[|previous| - 1].stderr;
      (n > 3 ==> FocusText(n, previous) == CriticalText) &&
      (n <= 3 && last != "" ==> FocusText(n, previous) == ErrorLines(CategorizeError(last))) &&
      (FocusText(n, previous) == "" <==> n <= 3 && last == "")
  {
    var last := previous[|previous| - 1].stderr;
    if n <= 3 && last != "" {
      ErrorLinesNonEmpty(CategorizeError(last));
    }
  }

  /** A restated diagnosis is never empty. */
  lemma ErrorLinesNonEmpty(d: Diagnostic)
    ensures |ErrorLines(d)| > 0
  {
    assert |ErrorLines(d)| >= |"Last error category: "|;
  }

  /** The restatement of one diagnosis, built as the source does: the
      category and issue lines, then one line per suggestion. */
  method DescribeDiagnosis(info: Diagnostic) returns (text: string)
    ensures text == ErrorLines(info)
  {
    text := "Last error category: " + info.category.Label() + "\n";
    text := text + "Specific issue: " + info.specificIssue + "\n";
    text := text + "Suggestions to fix:\n";
    ghost var head := text;
    var k := 0;
    while k < |info.suggestions|
      invariant 0 <= k <= |info.suggestions|
      invariant text == head + Bulleted(info.suggestions[..k], "- ")
    {
      assert info.suggestions[..k + 1][..k] == info.suggestions[..k];
      text := text + "- " + info.suggestions[k] + "\n";
      k := k + 1;
    }
    assert info.suggestions[..k] == info.suggestions;
  }

  /** The focus body for `n <= 3`: the last error restated when the last
      attempt left a stderr. */
  method DescribeLastError(stderr: string) returns (text: string)
    ensures text == LastErrorText(stderr)
  {
    text := "";
    if stderr != "" {
      var info := CategorizeError(stderr);
      text := DescribeDiagnosis(info);
    }
  }

  /** The focus body for attempt `n`. */
  method DescribeFocus(n: int, previous: seq<AttemptRecord>) returns (text: string)
    requires previous != []
    ensures text == FocusText(n, previous)
  {
    if n <= 3 {
      var recent := previous[|previous| - 1];
      text := DescribeLastError(recent.stderr);
    } else {
      text := "CRITICAL: Multiple failures detected. Consider:\n";
      text := text + "- Completely different approach\n";
      text := text + "- Simpler algorithm\n";
      text := text + "- More basic implementation\n";
      text := text + "- Extensive error handling\n";
    }
  }

  /** The `if previous_attempts:` part of the user prompt. */
  method DescribeHistory(n: int, previous: seq<AttemptRecord>) returns (text: string)
    ensures text == HistoryBlock(n, previous)
  {
    text := "";
    if previous != [] {
      var context := BuildLearningContext(previous);
      text := context + FocusHeader(n);
      var focus := DescribeFocus(n, previous);
      text := text + focus;
    }
  }

  /** `_build_user_prompt`, accumulating the prompt step by step. */
  method BuildUserPrompt(task: string, n: int, previous: seq<AttemptRecord>) returns (prompt: string)
    ensures prompt == UserPrompt(task, n, previous)
  {
    prompt := TaskLine(task);
    var history := DescribeHistory(n, previous);
    prompt := prompt + history;
    prompt := prompt + AttemptLine(n);
    prompt := prompt + Closing;
  }

  // ---------------------------------------------------------------------
  // The request payload.
  // ---------------------------------------------------------------------

  const ModelName := "mistral-large-latest"
  const MaxTokens := 1500

  /** What `generate_code` sends: the model, the two messages and the token
      budget (the temperature is not modelled). */
  datatype Request = Request(model: string, system: string, user: string, maxTokens: nat)

  function RequestFor(task: string, n: int, previous: seq<AttemptRecord>): Request {
    Request(ModelName, SystemPrompt(n, previous), UserPrompt(task, n, previous), MaxTokens)
  }

  /** Every request names the same model and token budget; its system
      message opens with the fixed expert line and its user message with the
      `Original Task` line, whatever the attempt and the history. */
  lemma RequestShape(task: string, n: int, previous: seq<AttemptRecord>)
    ensures var r := RequestFor(task, n, previous);
      r.model == "mistral-large-latest" && r.maxTokens == 1500 &&
      |r.system| > |BasePrompt| && r.system[..|BasePrompt|] == BasePrompt &&
      |r.user| > |TaskLine(task)| && r.user[..|TaskLine(task)|] == TaskLine(task)
  {
    PromptFrame(task, HistoryBlock(n, previous), n);
    var body := BandText(BandOf(n));
    FrontIsPrefix(BasePrompt, body);
    assert |body| > 0 by {
      assert |BaselineText| > 0 && |DebuggingText| > 0 && |RecoveryText| > 0;
    }
  }

  /** The payload for attempt `n`. */
  method BuildRequest(task: string, n: int, previous: seq<AttemptRecord>) returns (r: Request)
    ensures r == RequestFor(task, n, previous)
  {
    var user := BuildUserPrompt(task, n, previous);
    r := Request(ModelName, SystemPrompt(n, previous), user, MaxTokens);
  }
}
