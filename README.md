# Recursive AI Executor: a verified model of its core

The Recursive AI Executor asks a language model for Python code that solves
a user's request. It runs that code, and when the run fails it asks again
with what it learned from every earlier failure. This project models the
logic that drives those retries and proves properties about it:

- **`Classifier`** (`classifier.dfy`) models `ErrorAnalyzer.categorize_error`.
  The stderr of a failed run is lower-cased. Then the first signature
  string found in it picks a category: syntax, import, name, type, index,
  key or indentation, else unknown. Two regular-expression searches take out
  a missing module name and an undefined name. A third search, on the
  original text, reads a line number. The searches are written as scanners
  and proved equal to leftmost-match search for the three expressions used.
- **`LearningContext`** (`learning_context.dfy`) models
  `ErrorAnalyzer.build_learning_context`. Failed attempts are classified
  again and grouped by category in order of first appearance. A category
  seen more than once is reported with its count and its last two
  instances. Then one strategy hint is given for each hinted category that
  occurred. The text is built by methods with loops, each proved equal to a
  specification function, and the grouping is proved correct against the
  attempts.
- **`Prompts`** (`prompts.dfy`) models `_build_system_prompt` (three
  escalation bands chosen by the attempt number), `_build_user_prompt`
  (original request, learning context, focus block, closing) and the
  request payload.
- **`Executor`** (`executor.dfy`) models the attempt loop of
  `execute_recursive_ai` and the session state it leaves behind. Code
  generation and code execution are oracles given as parameters. The loop's
  outcome is proved to be fully determined by them.
- **`Text`** (`text.dfy`) and **`Wrappers`** (`wrappers.dfy`) provide
  substring search, ASCII case mapping, decimal printing and parsing, and
  `Option`.

Points where the code's behaviour may surprise a reader:

- A name error's issue reads `undefined_variable: <name>`, with a space
  after the colon (raie.py:88).
- The line number is read for every category, `unknown` included
  (raie.py:115-117).
- A line number can be 0 (`line 0` in stderr gives 0), so it is not
  always positive.
- A signature that fires adds at most one suggestion, not exactly one. The
  import and name branches add none when their expression does not match
  (raie.py:76-89).
- The history entry's `attempts` is `current_attempt`, the last attempt
  started (raie.py:610). This counts an attempt abandoned because generation
  failed, so it is not always the number of records.
- The history entry's code is the session's `generated_code`. When no
  attempt of this run produced code, that field still holds the code of an
  earlier run (raie.py:562, 607-615).

## Model

| member | source | states |
|---|---|---|
| `Classifier.CategorizeError` | raie.py:45-119 | definition of `categorize_error`; its properties are the rows `EmptyIsDefault` to `LineNumberRoundTrip` |
| `Classifier.Search` | raie.py:76 | definition of `re.search` reduced to the first group, also used at lines 85 and 115; its properties are the rows `SearchIsLeftmostMatch` and `MatchAtSpec` |
| `Classifier.Branch` | raie.py:62-112 | the record the taken branch of the if/elif chain builds always carries that branch's category; its other properties are the rows `SuggestionBounds`, `ImportExtraction`, `NameExtraction` and `ModuleNameShape` |
| `Classifier.LineNumber` | raie.py:114-117 | definition of the line-number extraction; its properties are the rows `LineNumberAnyCategory` and `LineNumberRoundTrip` |
| `Classifier.SearchIsLeftmostMatch` | raie.py:76-78 | `re.search` for `no module named '([^']+)'`, `name '([^']+)' is not defined` and `line (\d+)` returns the group of the match that starts first, and nothing exactly when the expression matches nowhere (used at lines 76, 85 and 115) |
| `Classifier.MatchAtSpec` | raie.py:76 | the anchored scanner returns a group at a position exactly when the regular expression can match there with that group |
| `Classifier.EmptyIsDefault` | raie.py:47-58 | empty stderr gives the default record: unknown category, empty issue, no line number, no missing imports, no suggestions |
| `Classifier.CategoryIsFirstMatch` | raie.py:60-112 | the category is unknown exactly when no signature string occurs in the lower-cased stderr; otherwise it is the category of the first table entry whose signature occurs, and no earlier entry's signature occurs |
| `Classifier.CategoryFollowsTable` | raie.py:60-112 | the if/elif chain gives the same category as the first firing entry of the signature table |
| `Classifier.FirstSignatureSpec` | raie.py:62-112 | searching the signature table from an index finds the first entry at or after it whose signature occurs, and none exactly when none occurs |
| `Classifier.SuggestionBounds` | raie.py:47-112 | each call adds at most one suggestion and at most one missing import; an unknown record has no suggestion, no missing import and an empty issue; a missing import only comes with the import category |
| `Classifier.ImportExtraction` | raie.py:73-80 | for an import error, the missing module is the leftmost `no module named '…'` group of the lower-cased text, with the matching suggestion; without a match there is neither, and the issue stays empty |
| `Classifier.NameExtraction` | raie.py:83-89 | for a name error, the issue is `undefined_variable: ` followed by the leftmost `name '…' is not defined` group, with the matching suggestion; without a match issue and suggestions stay empty |
| `Classifier.ModuleNameShape` | raie.py:60-78 | an extracted module name is non-empty, has no quote and no upper-case ASCII letter, because it is read from the lower-cased text |
| `Classifier.LineNumberAnyCategory` | raie.py:114-117 | for non-empty stderr, whatever the category, a line number is set exactly when `line ` followed by a digit occurs in the original text, and it is the value of the leftmost such digit run |
| `Classifier.LineNumberRoundTrip` | raie.py:115-117 | when the leftmost `line <digits>` is `line ` followed by `str(n)`, the record's line number is `n` |
| `Text.DecimalRoundTrip` | raie.py:117 | reading back a printed natural number with `int` gives the number |
| `Text.DecimalCanonical` | raie.py:117 | printing the value of a canonical digit string gives back the same string |
| `Text.IntToStringReadsBack` | raie.py:304 | the text `str(n)` puts into the prompt reads back as `n`: digits denoting the magnitude, after a minus sign exactly when `n` is negative (also used at lines 152 and 285) |
| `Text.ContainsSpec` | raie.py:63 | `pat in s` holds exactly when `pat` occurs at some index of `s` |
| `LearningContext.GroupSpec` | raie.py:133-145 | a category's group lists exactly the failed attempts classified under it, in attempt order, each labelled with its 1-based position and carrying that attempt's issue and suggestions |
| `LearningContext.GroupCount` | raie.py:137-152 | a category's group has one entry per failed attempt classified under it (the count printed on line 152) |
| `LearningContext.GroupNonEmptyIffKey` | raie.py:139-145 | a category has a non-empty group exactly when it is a key of `error_patterns` |
| `LearningContext.OrderSpec` | raie.py:133-150 | the keys of `error_patterns` are distinct, are exactly the categories of failed attempts, have non-empty groups, and are visited in order of each category's first failure |
| `LearningContext.JudgedAttempts` | raie.py:133-145 | attempt `i` counts under category `c` exactly when it failed and its stderr classifies as `c`; its entry is labelled `i + 1` |
| `LearningContext.EmptyStderrIsUnknown` | raie.py:136-145 | a failed attempt with no stderr is grouped as unknown with an empty issue and no suggestions |
| `LearningContext.SuccessAddsNothing` | raie.py:133-134 | appending a successful attempt to a non-empty history leaves the learning context unchanged |
| `LearningContext.RepeatedCategoryReport` | raie.py:150-156 | a category failing once is not reported; a category failing `k > 1` times gives the line with its upper-cased label and `k`, then its last two instances; the printed count reads back as `k` |
| `LearningContext.BlockInSection` | raie.py:148-156 | the pattern section is the header followed by the blocks of the categories in key order, with each category's block in its place |
| `LearningContext.HintLinesSpec` | raie.py:159-167 | at most four hints, no hint twice, each hint present exactly when its category is a key, and every hint line belongs to some category |
| `LearningContext.HintIffCategoryFailed` | raie.py:133-167 | the import, syntax, name and type hints appear exactly when some failed attempt was classified under that category |
| `LearningContext.ContextFrame` | raie.py:123-169 | no attempts give the empty text; otherwise the text opens with the learning header and contains the strategies header |
| `LearningContext.GroupByCategory` | raie.py:132-145 | the grouping loop's key order and groups are `CategoryOrder` and `Groups` of the attempts |
| `LearningContext.DescribeInstance` | raie.py:154-156 | the lines for one instance are its `Attempt` line and one indented line per suggestion |
| `LearningContext.DescribeRecent` | raie.py:153-156 | the lines for the instances shown are those of each instance in order |
| `LearningContext.ReportCategory` | raie.py:151-156 | one category's report is `PatternBlock` of its group |
| `LearningContext.ReportRepeated` | raie.py:150-156 | the loop over `error_patterns` produces the blocks of all keys joined in key order |
| `LearningContext.StrategyHints` | raie.py:159-167 | the hint tests produce the hint lines of the keys, in the fixed order |
| `LearningContext.BuildLearningContext` | raie.py:122-169 | the method builds exactly `LearningContextText` of the attempts, whose properties are the lemmas above |
| `Prompts.BandOf` | raie.py:226-256 | attempt 1 gets the baseline band; any other attempt up to 3 (below 1 included) gets the debugging band; attempts above 3 get the recovery band; each in both directions |
| `Prompts.SystemPrompt` | raie.py:221-271 | definition of `_build_system_prompt`; its properties are the rows `BandOf`, `SystemPromptBands` and `RequestShape` |
| `Prompts.SystemPromptBands` | raie.py:221-271 | two system prompts are equal exactly when their attempt numbers fall in the same band; the history never changes the system prompt |
| `Prompts.HistoryBlockEmpty` | raie.py:279-301 | the history part of the user prompt is empty exactly when there are no previous attempts |
| `Prompts.PromptFrame` | raie.py:277-305 | the user prompt opens with the `Original Task` line, then the history part, and closes with the attempt line and the closing sentence |
| `Prompts.UserPromptBare` | raie.py:277-305 | without previous attempts the user prompt is just the opening and closing lines, and only then |
| `Prompts.FocusCases` | raie.py:281-301 | with a history, the block opens with the learning context of the whole history and the focus header; the focus body is the fixed critical list above attempt 3, the last error restated (category, issue, suggestions) up to attempt 3 when the last stderr is non-empty, and empty exactly when it is at most 3 and that stderr is empty |
| `Prompts.DescribeDiagnosis` | raie.py:290-295 | the restated last error is its category line, issue line, suggestions header and one line per suggestion |
| `Prompts.DescribeLastError` | raie.py:288-295 | the last error is restated only when the last attempt left a stderr |
| `Prompts.DescribeFocus` | raie.py:287-302 | the focus body built is `FocusText` for the attempt number and history |
| `Prompts.DescribeHistory` | raie.py:279-302 | the history part built is `HistoryBlock` for the attempt number and history |
| `Prompts.BuildUserPrompt` | raie.py:273-307 | the prompt accumulated step by step is `UserPrompt`, whose shape the lemmas above state |
| `Prompts.RequestShape` | raie.py:192-200 | every request names `mistral-large-latest` with a budget of 1500 tokens; its system message opens with the expert line and its user message with the `Original Task` line |
| `Prompts.BuildRequest` | raie.py:186-200 | the payload built is the request for the attempt number and history |
| `Executor.RunAttempts` | raie.py:538-587 | the loop's records, success flag and last attempt started satisfy `IsRun`: at most `max_attempts` records, record `j` holds attempt `j + 1` with the generator's code for the records before it and the executor's report, the loop stops after the first success or the first failed generation, and otherwise runs out of attempts |
| `Executor.RunShape` | raie.py:538-583 | records are numbered 1, 2, … and hold non-empty code; at most `max_attempts` attempts start; a successful run started exactly the attempts it recorded |
| `Executor.RunsAgreeOnPrefix` | raie.py:538-583 | two runs with the same inputs and oracles agree on every prefix both reach |
| `Executor.RunStep` | raie.py:552-587 | each record comes from a usable reply, and each record but the first follows a failure |
| `Executor.RunStopsFirst` | raie.py:552-587 | no run with the same inputs and oracles has more records than another |
| `Executor.RunDeterminate` | raie.py:538-587 | the records, the success flag and the last attempt started are fully determined by the request, the bound and the oracles |
| `Executor.Session.constructor` | raie.py:28-37 | a new session has no history, attempt 0, no code, no logs and is not running |
| `Executor.Session.ExecuteRecursive` | raie.py:519-617 | the logs and `current_attempt` form a run; `generated_code` is the last record's code, or the earlier value when no code was produced; one history entry is appended with the request, that code, `current_attempt`, the success flag, the logs and whether more than one attempt was made; the session is no longer running |

## Left out

- `CodeExecutor.execute_python_code` (temporary file, subprocess, 15-second timeout) is an oracle parameter `execute(n, code)`.
- `MistralAIClient.generate_code` (HTTP request, JSON reply, error display) is an oracle parameter `generate(task, n, previous)`, where `task` is the original request text. The payload it sends is modelled by `Prompts.RequestFor`, without the floating-point temperature.
- `_clean_generated_code` (markdown fence stripping) is taken to happen inside the generator oracle.
- Executor.Session.ExecuteRecursive: the session fields are written once, after the loop, rather than in each iteration. No other code reads them during the loop, so the final state is the same, except when the exception described under `Classifier.LineNumber` ends the run. The UI, the `time.sleep` between attempts, the timestamp of the history entry and the `try/except` that reports unexpected exceptions are not modelled.
- The API key, the `show_learning` flag and the `st.info` calls it guards only affect display or authentication.
- `main` and the Streamlit page (layout, session-state display, success-rate metric) are presentation only.
- Lower-casing, upper-casing and `\d` cover ASCII only. Python's Unicode case mapping and Unicode digits are not modelled.
- The classifier record's `syntax_issues` and `runtime_issues` lists are never filled or read, so they are left out. The same goes for `successful_patterns` in `build_learning_context`, which is filled but never read.
- The `timestamp` of each attempt record is a clock reading and is not modelled.
- Classifier.LineNumber: `int()` of the digit run is modelled as its value for any length. CPython 3.11 and later, and some earlier patch releases, raise `ValueError` for a run of more than 4300 digits (raie.py:117). That exception escapes `categorize_error`, whether it is called from the loop (raie.py:570) or from `build_learning_context` while the user prompt is built (raie.py:137, 290). `execute_recursive_ai` then ends in its `except` (raie.py:619-623) without appending a history entry. The model has no such path: `CategorizeError` always returns a record, and `Executor.Session.ExecuteRecursive` always appends an entry.
