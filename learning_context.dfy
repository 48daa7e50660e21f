/** `ErrorAnalyzer.build_learning_context`: the attempts so far become the text
    that steers the next generation request. Failed attempts are re-classified
    and grouped by category in order of first appearance; a category seen more
    than once is reported with its count and its last two instances; then one
    strategy hint is emitted per hinted category that occurred. */
module LearningContext {
  import opened Wrappers
  import opened Text
  import opened Classifier

  /** One attempt of a run, as recorded by the retry loop. */
  datatype AttemptRecord = AttemptRecord(
    attempt: int,
    success: bool,
    stdout: string,
    stderr: string,
    code: string,
    errorAnalysis: Option<Diagnostic>)

  /** An entry of a category's group: the attempt's 1-based position in the
      list, its issue and its suggestions. */
  datatype Instance = Instance(attempt: nat, issue: string, suggestions: seq<string>)

  const Header := "\n=== LEARNING FROM PREVIOUS ATTEMPTS ===\n"
  const PatternsHeader := "\nREPEATED ERROR PATTERNS DETECTED:\n"
  const StrategiesHeader := "\nIMPROVEMENT STRATEGIES:\n"
  const ImportHint := "- Use only standard library imports (avoid external packages)\n"
  const SyntaxHint := "- Double-check syntax, especially brackets and indentation\n"
  const NameHint := "- Ensure all variables are defined before use\n"
  const TypeHint := "- Add type checking and validation\n"

  // ---------------------------------------------------------------------
  // Grouping.
  // ---------------------------------------------------------------------

  /** What the grouping loop makes of one attempt: nothing for a success, the
      classification of its stderr for a failure. */
  function Judge(r: AttemptRecord): Option<Diagnostic> {
    if r.success then None else Some(CategorizeError(r.stderr))
  }

  /** The judgement of every attempt, in order. The grouping depends on the
      attempts only through this sequence. */
  function Judged(attempts: seq<AttemptRecord>): seq<Option<Diagnostic>> {
    seq(|attempts|, i requires 0 <= i < |attempts| => Judge(attempts[i]))
  }

  /** Attempt `i` failed and was classified as `c`. */
  predicate FailsAt(judged: seq<Option<Diagnostic>>, i: nat, c: Category)
    requires i < |judged|
  {
    judged[i].Some? && judged[i].value.category == c
  }

  /** The group entry made for failed attempt `i`: it is labelled with its
      position `i + 1`, not with the record's own `attempt` field. */
  function EntryAt(judged: seq<Option<Diagnostic>>, i: nat): Instance
    requires i < |judged| && judged[i].Some?
  {
    Instance(i + 1, judged[i].value.specificIssue, judged[i].value.suggestions)
  }

  /** The instances of category `c`, in attempt order. */
  function GroupOf(judged: seq<Option<Diagnostic>>, c: Category): seq<Instance>
    decreases |judged|
  {
    if judged == [] then []
    else
      var n := |judged| - 1;
      var before := GroupOf(judged[..n], c);
      if FailsAt(judged, n, c) then before + [EntryAt(judged, n)] else before
  }

  /** The categories in the order in which each first failed. */
  function OrderOf(judged: seq<Option<Diagnostic>>): seq<Category>
    decreases |judged|
  {
    if judged == [] then []
    else
      var n := |judged| - 1;
      var before := OrderOf(judged[..n]);
      if judged[n].Some? && judged[n].value.category !in before
      then before + [judged[n].value.category]
      else before
  }

  /** `error_patterns[c]` after the grouping loop over all of `attempts`. */
  function Group(attempts: seq<AttemptRecord>, c: Category): seq<Instance> {
    GroupOf(Judged(attempts), c)
  }

  /** The keys of `error_patterns` in insertion order. */
  function CategoryOrder(attempts: seq<AttemptRecord>): seq<Category> {
    OrderOf(Judged(attempts))
  }

  /** `error_patterns` as a map from each key to its group. */
  function Groups(attempts: seq<AttemptRecord>): map<Category, seq<Instance>> {
    map c | c in CategoryOrder(attempts) :: Group(attempts, c)
  }

  /** A category has a non-empty group exactly when it is a key of
      `error_patterns`. */
  lemma {:induction false} GroupNonEmptyIffKey(judged: seq<Option<Diagnostic>>, c: Category)
    ensures GroupOf(judged, c) != [] <==> c in OrderOf(judged)
    decreases |judged|
  {
    if judged != [] {
      GroupNonEmptyIffKey(judged[..|judged| - 1], c);
    }
  }

  // ---------------------------------------------------------------------
  // The text.
  // ---------------------------------------------------------------------

  function InstanceText(e: Instance): string {
    "  * Attempt " + NatToString(e.attempt) + ": " + e.issue + "\n" + Bulleted(e.suggestions, "    - ")
  }

  function InstancesText(es: seq<Instance>): string {
    if es == [] then "" else InstancesText(es[..|es| - 1]) + InstanceText(es[|es| - 1])
  }

  function CountLine(c: Category, count: nat): string {
    "- " + Upper(c.Label()) + " errors occurred " + NatToString(count) + " times\n"
  }

  /** What one category contributes: nothing unless it repeats, and then its
      count and its last two instances (`errors[-2:]`). */
  function PatternBlock(c: Category, errors: seq<Instance>): string {
    if |errors| > 1 then CountLine(c, |errors|) + InstancesText(errors[|errors| - 2..]) else ""
  }

  /** The block of each category in `cats`, in that order. */
  function BlockTexts(groups: map<Category, seq<Instance>>, cats: seq<Category>): seq<string>
    requires forall c :: c in cats ==> c in groups
  {
    seq(|cats|, j requires 0 <= j < |cats| => PatternBlock(cats[j], groups[cats[j]]))
  }

  function PatternSection(attempts: seq<AttemptRecord>): string {
    var order := CategoryOrder(attempts);
    if order == [] then "" else PatternsHeader + Concat(BlockTexts(Groups(attempts), order))
  }

  lemma BlockTextsAppend(groups: map<Category, seq<Instance>>, cats: seq<Category>, j: nat)
    requires j < |cats| && forall c :: c in cats ==> c in groups
    ensures BlockTexts(groups, cats[..j + 1]) ==
            BlockTexts(groups, cats[..j]) + [PatternBlock(cats[j], groups[cats[j]])]
  {
    var longer, shorter := BlockTexts(groups, cats[..j + 1]), BlockTexts(groups, cats[..j]);
    forall i | 0 <= i <= j ensures longer[i] == (shorter + [PatternBlock(cats[j], groups[cats[j]])])[i] {
      assert cats[..j + 1][i] == cats[i];
      if i < j {
        assert cats[..j][i] == cats[i];
      }
    }
  }

  /** The strategy hint a category triggers, if any. */
  function HintFor(c: Category): Option<string> {
    match c
    case Import => Some(ImportHint)
    case Syntax => Some(SyntaxHint)
    case Name => Some(NameHint)
    case Type => Some(TypeHint)
    case _ => None
  }

  /** The hint line category `c` contributes when it is among `order`. */
  function HintIf(c: Category, order: seq<Category>): seq<string> {
    if c in order && HintFor(c).Some? then [HintFor(c).value] else []
  }

  /** The hint lines emitted for the categories in `order`, in the fixed
      order import, syntax, name, type. */
  function HintLines(order: seq<Category>): seq<string> {
    HintIf(Import, order) + HintIf(Syntax, order) + HintIf(Name, order) + HintIf(Type, order)
  }

  /** The whole learning context for `attempts`. */
  function LearningContextText(attempts: seq<AttemptRecord>): string {
    if attempts == [] then ""
    else Header + PatternSection(attempts) + StrategiesHeader + Concat(HintLines(CategoryOrder(attempts)))
  }

  // ---------------------------------------------------------------------
  // Properties of the grouping.
  // ---------------------------------------------------------------------

  /** `e` is the entry of a failed attempt classified as `c`. */
  predicate IsEntry(judged: seq<Option<Diagnostic>>, c: Category, e: Instance) {
    1 <= e.attempt <= |judged| && FailsAt(judged, e.attempt - 1, c) &&
    e == EntryAt(judged, e.attempt - 1)
  }

  /** A category's group lists exactly the failed attempts classified under
      it, in attempt order, each labelled with its 1-based position and
      carrying that attempt's issue and suggestions; successful attempts never
      appear. */
  lemma {:induction false} GroupSpec(judged: seq<Option<Diagnostic>>, c: Category)
    ensures forall k :: 0 <= k < |GroupOf(judged, c)| ==> IsEntry(judged, c, GroupOf(judged, c)[k])
    ensures forall k, l :: 0 <= k < l < |GroupOf(judged, c)| ==>
      GroupOf(judged, c)[k].attempt < GroupOf(judged, c)[l].attempt
    ensures forall i :: 0 <= i < |judged| && FailsAt(judged, i, c) ==>
      exists k :: 0 <= k < |GroupOf(judged, c)| && GroupOf(judged, c)[k].attempt == i + 1
  {
    GroupEntries(judged, c);
    forall i | 0 <= i < |judged| && FailsAt(judged, i, c)
      ensures exists k :: 0 <= k < |GroupOf(judged, c)| && GroupOf(judged, c)[k].attempt == i + 1
    {
      GroupComplete(judged, c, i);
    }
  }

  lemma {:induction false} GroupEntries(judged: seq<Option<Diagnostic>>, c: Category)
    ensures forall k :: 0 <= k < |GroupOf(judged, c)| ==> IsEntry(judged, c, GroupOf(judged, c)[k])
    ensures forall k, l :: 0 <= k < l < |GroupOf(judged, c)| ==>
      GroupOf(judged, c)[k].attempt < GroupOf(judged, c)[l].attempt
    decreases |judged|
  {
    if judged != [] {
      var n := |judged| - 1;
      var prefix := judged[..n];
      GroupEntries(prefix, c);
      var before := GroupOf(prefix, c);
      forall k | 0 <= k < |before| ensures IsEntry(judged, c, before[k]) {
        assert IsEntry(prefix, c, before[k]);
        assert prefix[before[k].attempt - 1] == judged[before[k].attempt - 1];
      }
    }
  }

  lemma {:induction false} GroupComplete(judged: seq<Option<Diagnostic>>, c: Category, i: nat)
    requires i < |judged| && FailsAt(judged, i, c)
    ensures exists k: nat :: k < |GroupOf(judged, c)| && GroupOf(judged, c)[k].attempt == i + 1
    decreases |judged|
  {
    var n := |judged| - 1;
    var prefix := judged[..n];
    var g := GroupOf(judged, c);
    if i < n {
      assert prefix[i] == judged[i];
      GroupComplete(prefix, c, i);
      var before := GroupOf(prefix, c);
      var k: nat :| k < |before| && before[k].attempt == i + 1;
      assert g[k] == before[k];
    } else {
      assert g[|g| - 1].attempt == i + 1;
    }
  }

  /** The failed attempts classified under `c`, by index. */
  ghost function FailedUnder(judged: seq<Option<Diagnostic>>, c: Category): set<nat> {
    set i: nat | i < |judged| && FailsAt(judged, i, c)
  }

  /** The group of `c` has one entry per failed attempt classified under it. */
  lemma {:induction false} GroupCount(judged: seq<Option<Diagnostic>>, c: Category)
    ensures |GroupOf(judged, c)| == |FailedUnder(judged, c)|
    decreases |judged|
  {
    if judged != [] {
      var n := |judged| - 1;
      var prefix := judged[..n];
      GroupCount(prefix, c);
      FailedUnderStep(judged, c);
    }
  }

  /** The failures under `c` are those of the earlier attempts plus the last
      attempt when it failed under `c`. */
  lemma FailedUnderStep(judged: seq<Option<Diagnostic>>, c: Category)
    requires judged != []
    ensures var n := |judged| - 1;
      FailedUnder(judged, c) ==
        FailedUnder(judged[..n], c) + (if FailsAt(judged, n, c) then {n} else {}) &&
      n !in FailedUnder(judged[..n], c)
  {
    var n := |judged| - 1;
    var prefix := judged[..n];
    assert forall i: nat :: i < n ==> (FailsAt(prefix, i, c) <==> FailsAt(judged, i, c));
  }

  /** The keys of `error_patterns` are distinct, are exactly the categories of
      the failed attempts, and come in the order in which each first failed. */
  lemma OrderSpec(judged: seq<Option<Diagnostic>>)
    ensures var order := OrderOf(judged);
      (forall j, k :: 0 <= j < k < |order| ==> order[j] != order[k]) &&
      (forall c :: c in order <==> exists i :: 0 <= i < |judged| && FailsAt(judged, i, c)) &&
      (forall c :: c in order ==> GroupOf(judged, c) != [])
    ensures var order := OrderOf(judged);
      forall j, k :: 0 <= j < k < |order| ==>
        GroupOf(judged, order[j])[0].attempt < GroupOf(judged, order[k])[0].attempt
  {
    OrderDistinct(judged);
    OrderKeys(judged);
    OrderByFirstFailure(judged);
    forall c | c in OrderOf(judged) ensures GroupOf(judged, c) != [] {
      GroupNonEmptyIffKey(judged, c);
    }
  }

  /** No category is a key twice. */
  lemma {:induction false} OrderDistinct(judged: seq<Option<Diagnostic>>)
    ensures forall j, k :: 0 <= j < k < |OrderOf(judged)| ==> OrderOf(judged)[j] != OrderOf(judged)[k]
    decreases |judged|
  {
    if judged != [] {
      var n := |judged| - 1;
      var before := OrderOf(judged[..n]);
      OrderDistinct(judged[..n]);
      var order := OrderOf(judged);
      if judged[n].Some? && judged[n].value.category !in before {
        assert order == before + [judged[n].value.category];
        forall j, k | 0 <= j < k < |order| ensures order[j] != order[k] {
          assert order[j] == before[j] && before[j] in before;
          if k < |before| {
            assert order[k] == before[k];
          } else {
            assert order[k] == judged[n].value.category;
          }
        }
      }
    }
  }

  /** The keys are exactly the categories of the failed attempts. */
  lemma {:induction false} OrderKeys(judged: seq<Option<Diagnostic>>)
    ensures forall c :: c in OrderOf(judged) <==> exists i :: 0 <= i < |judged| && FailsAt(judged, i, c)
    decreases |judged|
  {
    if judged != [] {
      var n := |judged| - 1;
      var prefix := judged[..n];
      OrderKeys(prefix);
      assert forall i: nat :: i < n ==> prefix[i] == judged[i];
      forall c ensures c in OrderOf(judged) <==> exists i :: 0 <= i < |judged| && FailsAt(judged, i, c) {
        if exists i :: 0 <= i < |judged| && FailsAt(judged, i, c) {
          var i :| 0 <= i < |judged| && FailsAt(judged, i, c);
          if i < n { assert FailsAt(prefix, i, c); }
        }
        if c in OrderOf(prefix) {
          var i :| 0 <= i < |prefix| && FailsAt(prefix, i, c);
          assert FailsAt(judged, i, c);
        } else if c in OrderOf(judged) {
          assert FailsAt(judged, n, c);
        }
      }
    }
  }

  /** The keys come in the order of their categories' first failures. */
  lemma {:induction false} OrderByFirstFailure(judged: seq<Option<Diagnostic>>)
    ensures forall c :: c in OrderOf(judged) ==> GroupOf(judged, c) != []
    ensures forall j, k :: 0 <= j < k < |OrderOf(judged)| ==>
      GroupOf(judged, OrderOf(judged)[j])[0].attempt < GroupOf(judged, OrderOf(judged)[k])[0].attempt
    decreases |judged|
  {
    forall c | c in OrderOf(judged) ensures GroupOf(judged, c) != [] {
      GroupNonEmptyIffKey(judged, c);
    }
    if judged != [] {
      var n := |judged| - 1;
      var prefix := judged[..n];
      var before := OrderOf(prefix);
      OrderByFirstFailure(prefix);
      assert forall i: nat :: i < n ==> prefix[i] == judged[i];
      forall c | c in before ensures GroupOf(judged, c)[0] == GroupOf(prefix, c)[0] {
        GroupNonEmptyIffKey(prefix, c);
      }
      forall c | c in before ensures GroupOf(prefix, c)[0].attempt <= n {
        GroupSpec(prefix, c);
      }
      var order := OrderOf(judged);
      if judged[n].Some? && judged[n].value.category !in before {
        var c := judged[n].value.category;
        GroupNonEmptyIffKey(prefix, c);
        assert GroupOf(judged, c)[0].attempt == n + 1;
        assert order == before + [c];
        forall j, k | 0 <= j < k < |order|
          ensures GroupOf(judged, order[j])[0].attempt < GroupOf(judged, order[k])[0].attempt
        {
          assert order[j] == before[j] && before[j] in before;
          if k < |before| { assert order[k] == before[k] && before[k] in before; }
        }
      } else {
        assert order == before;
        forall j, k | 0 <= j < k < |order|
          ensures GroupOf(judged, order[j])[0].attempt < GroupOf(judged, order[k])[0].attempt
        {
          assert order[j] == before[j] && order[k] == before[k];
          assert before[j] in before && before[k] in before;
        }
      }
    }
  }


  /** The order and groups of a run are those of its judged attempts. */
  lemma JudgedAttempts(attempts: seq<AttemptRecord>, i: nat, c: Category)
    requires i < |attempts|
    ensures FailsAt(Judged(attempts), i, c) <==>
            !attempts[i].success && CategorizeError(attempts[i].stderr).category == c
    ensures !attempts[i].success ==>
      var d := CategorizeError(attempts[i].stderr);
      EntryAt(Judged(attempts), i) == Instance(i + 1, d.specificIssue, d.suggestions)
  {
  }

  /** A failed attempt with no stderr is grouped as `unknown`, with no issue
      and no suggestions. */
  lemma EmptyStderrIsUnknown(attempts: seq<AttemptRecord>, i: nat)
    requires i < |attempts| && !attempts[i].success && attempts[i].stderr == ""
    ensures FailsAt(Judged(attempts), i, Unknown)
    ensures EntryAt(Judged(attempts), i) == Instance(i + 1, "", [])
  {
    EmptyIsDefault();
  }

  // ---------------------------------------------------------------------
  // Properties of the text.
  // ---------------------------------------------------------------------

  /** Only repeated categories are reported: a category with k > 1 failed
      attempts is reported as occurring k times (the count printed in
      decimal), with the details of its last two instances only; a category
      that failed once contributes nothing. */
  lemma RepeatedCategoryReport(judged: seq<Option<Diagnostic>>, c: Category)
    requires c in OrderOf(judged)
    ensures var g := GroupOf(judged, c);
      var k := |FailedUnder(judged, c)|;
      k == |g| && k >= 1 &&
      (k == 1 ==> PatternBlock(c, g) == "") &&
      (k > 1 ==>
         PatternBlock(c, g) ==
           "- " + Upper(c.Label()) + " errors occurred " + NatToString(k) + " times\n" +
           InstanceText(g[k - 2]) + InstanceText(g[k - 1]) &&
         DecimalValue(NatToString(k)) == k)
  {
    var g := GroupOf(judged, c);
    GroupCount(judged, c);
    GroupNonEmptyIffKey(judged, c);
    var k := |g|;
    if k > 1 {
      var recent := g[k - 2..];
      assert recent[..1] == [g[k - 2]] && recent[..1][..0] == [];
      assert InstancesText(recent[..1]) == InstanceText(g[k - 2]);
      assert InstancesText(recent) == InstanceText(g[k - 2]) + InstanceText(g[k - 1]);
      DecimalRoundTrip(k);
    }
  }

  /** Every key's block appears in the pattern section, between the blocks of
      the keys before it and those after it. */
  lemma BlockInSection(attempts: seq<AttemptRecord>, j: nat)
    requires j < |CategoryOrder(attempts)|
    ensures var order := CategoryOrder(attempts);
      var blocks := BlockTexts(Groups(attempts), order);
      PatternSection(attempts) ==
        PatternsHeader + Concat(blocks[..j]) +
        PatternBlock(order[j], Group(attempts, order[j])) + Concat(blocks[j + 1..])
  {
    var order, groups := CategoryOrder(attempts), Groups(attempts);
    assert groups[order[j]] == Group(attempts, order[j]);
    BlockInBlocks(groups, order, j);
  }

  /** The joined blocks split around the block of the key at `j`. */
  lemma BlockInBlocks(groups: map<Category, seq<Instance>>, order: seq<Category>, j: nat)
    requires j < |order| && forall c :: c in order ==> c in groups
    ensures var blocks := BlockTexts(groups, order);
      Concat(blocks) == Concat(blocks[..j]) + PatternBlock(order[j], groups[order[j]]) + Concat(blocks[j + 1..])
  {
    ConcatSplit(BlockTexts(groups, order), j);
  }

  /** Each strategy hint appears at most once; it appears exactly when its
      category is among the keys; nothing else appears. */
  lemma HintLinesSpec(order: seq<Category>)
    ensures var r := HintLines(order);
      |r| <= 4 &&
      (forall c :: HintFor(c).Some? ==> (HintFor(c).value in r <==> c in order)) &&
      (forall j, k :: 0 <= j < k < |r| ==> r[j] != r[k]) &&
      (forall j :: 0 <= j < |r| ==> exists c :: c in order && HintFor(c) == Some(r[j]))
  {
    var r := HintLines(order);
    HintsDiffer();
    forall c | HintFor(c).Some? ensures HintFor(c).value in r <==> c in order {
      HintIn(c, order);
    }
  }

  /** The four hint lines are pairwise different, so a hint line names its
      category. */
  lemma HintsDiffer()
    ensures forall c, d :: HintFor(c).Some? && HintFor(c) == HintFor(d) ==> c == d
  {
    assert |ImportHint| != |SyntaxHint| && |ImportHint| != |NameHint| && |ImportHint| != |TypeHint| &&
           |SyntaxHint| != |NameHint| && |SyntaxHint| != |TypeHint| && |NameHint| != |TypeHint|;
  }

  /** A category's hint line is among the hint lines exactly when the
      category is among `order`. */
  lemma HintIn(c: Category, order: seq<Category>)
    requires HintFor(c).Some?
    ensures HintFor(c).value in HintLines(order) <==> c in order
  {
    HintsDiffer();
  }

  /** Each of the four hints appears exactly when an attempt failed with its
      category. */
  lemma HintIffCategoryFailed(attempts: seq<AttemptRecord>, c: Category)
    requires HintFor(c).Some?
    ensures HintFor(c).value in HintLines(CategoryOrder(attempts)) <==>
            exists i :: 0 <= i < |attempts| && FailsAt(Judged(attempts), i, c)
  {
    var judged := Judged(attempts);
    assert |judged| == |attempts|;
    HintIffFails(judged, c);
  }

  /** The judged form of `HintIffCategoryFailed`. */
  lemma HintIffFails(judged: seq<Option<Diagnostic>>, c: Category)
    requires HintFor(c).Some?
    ensures HintFor(c).value in HintLines(OrderOf(judged)) <==>
            exists i :: 0 <= i < |judged| && FailsAt(judged, i, c)
  {
    HintLinesSpec(OrderOf(judged));
    OrderSpec(judged);
  }

  /** No attempts give the empty context; otherwise the context opens with
      the learning header and always contains the strategies heading. */
  lemma ContextFrame(attempts: seq<AttemptRecord>)
    ensures attempts == [] ==> LearningContextText(attempts) == ""
    ensures attempts != [] ==>
      var text := LearningContextText(attempts);
      text[..|Header|] == Header && Contains(text, StrategiesHeader)
  {
    if attempts != [] {
      Framed(Header, PatternSection(attempts), StrategiesHeader, Concat(HintLines(CategoryOrder(attempts))));
    }
  }

  /** A successful attempt added after a non-empty history changes nothing:
      successes never contribute to the error patterns or the hints. */
  lemma SuccessAddsNothing(attempts: seq<AttemptRecord>, r: AttemptRecord)
    requires attempts != [] && r.success
    ensures LearningContextText(attempts + [r]) == LearningContextText(attempts)
  {
    var longer := attempts + [r];
    assert Judged(longer)[..|attempts|] == Judged(attempts);
    assert CategoryOrder(longer) == CategoryOrder(attempts);
    forall c ensures Group(longer, c) == Group(attempts, c) { }
    assert Groups(longer) == Groups(attempts);
  }

  // ---------------------------------------------------------------------
  // The builder.
  // ---------------------------------------------------------------------

  /** The grouping loop: `error_patterns` as its insertion-ordered keys and
      the map from each key to its instances. */
  method GroupByCategory(attempts: seq<AttemptRecord>) returns (order: seq<Category>, groups: map<Category, seq<Instance>>)
    ensures order == CategoryOrder(attempts)
    ensures groups == Groups(attempts)
  {
    order, groups := [], map[];
    ghost var judged := Judged(attempts);
    var i := 0;
    while i < |attempts|
      invariant 0 <= i <= |attempts|
      invariant (order, groups) == Grouped(judged[..i])
    {
      assert judged[..i + 1][..i] == judged[..i];
      if !attempts[i].success {
        var info := CategorizeError(attempts[i].stderr);
        assert judged[i] == Some(info);
        var category := info.category;
        if category !in groups {
          groups := groups[category := []];
          order := order + [category];
        }
        groups := groups[category := groups[category] + [Instance(i + 1, info.specificIssue, info.suggestions)]];
      } else {
        assert judged[i] == None;
      }
      i := i + 1;
    }
    assert judged[..i] == judged;
    GroupedInvariant(judged);
  }

  /** The grouping loop's state after the judged attempts `judged`: each
      failure adds its category as a key when it is new and appends its entry
      to that key's group. */
  function Grouped(judged: seq<Option<Diagnostic>>): (seq<Category>, map<Category, seq<Instance>>)
    decreases |judged|
  {
    if judged == [] then ([], map[])
    else
      var n := |judged| - 1;
      var (order, groups) := Grouped(judged[..n]);
      if judged[n].None? then (order, groups)
      else
        var info := judged[n].value;
        var category := info.category;
        var order1 := if category in groups then order else order + [category];
        var groups1 := if category in groups then groups else groups[category := []];
        (order1, groups1[category := groups1[category] + [Instance(n + 1, info.specificIssue, info.suggestions)]])
  }

  /** The loop's state holds the insertion order of the keys and, for each
      key, its group. */
  lemma {:induction false} GroupedInvariant(judged: seq<Option<Diagnostic>>)
    ensures Grouped(judged).0 == OrderOf(judged)
    ensures forall c :: c in Grouped(judged).1 <==> c in OrderOf(judged)
    ensures forall c :: c in Grouped(judged).1 ==> Grouped(judged).1[c] == GroupOf(judged, c)
    decreases |judged|
  {
    if judged != [] {
      var n := |judged| - 1;
      GroupedInvariant(judged[..n]);
      var (order, groups) := Grouped(judged[..n]);
      assert judged[..n + 1] == judged;
      GroupAdvance(judged, n, order, groups);
    }
  }

  /** The grouping loop's invariant survives one more attempt: a failure
      adds its category as a new key if needed and appends its entry to that
      key's group; a success changes nothing. */
  lemma GroupAdvance(judged: seq<Option<Diagnostic>>, i: nat, order: seq<Category>, groups: map<Category, seq<Instance>>)
    requires i < |judged|
    requires order == OrderOf(judged[..i])
    requires forall c :: c in groups <==> c in order
    requires forall c :: c in groups ==> groups[c] == GroupOf(judged[..i], c)
    ensures judged[i].Some? ==>
      var cat := judged[i].value.category;
      var o1 := if cat in groups then order else order + [cat];
      var g1 := if cat in groups then groups else groups[cat := []];
      var g2 := g1[cat := g1[cat] + [EntryAt(judged, i)]];
      o1 == OrderOf(judged[..i + 1]) &&
      (forall c :: c in g2 <==> c in o1) &&
      (forall c :: c in g2 ==> g2[c] == GroupOf(judged[..i + 1], c))
    ensures judged[i].None? ==>
      order == OrderOf(judged[..i + 1]) &&
      forall c :: c in groups ==> groups[c] == GroupOf(judged[..i + 1], c)
  {
    OrderStep(judged, i);
    if judged[i].Some? {
      GroupNonEmptyIffKey(judged[..i], judged[i].value.category);
    }
    forall c ensures GroupOf(judged[..i + 1], c) ==
      if FailsAt(judged, i, c) then GroupOf(judged[..i], c) + [EntryAt(judged, i)] else GroupOf(judged[..i], c)
    {
      GroupStep(judged, i, c);
    }
  }

  /** One more attempt extends the key order by its category when that
      category is new. */
  lemma OrderStep(judged: seq<Option<Diagnostic>>, i: nat)
    requires i < |judged|
    ensures OrderOf(judged[..i + 1]) ==
      if judged[i].Some? && judged[i].value.category !in OrderOf(judged[..i])
      then OrderOf(judged[..i]) + [judged[i].value.category]
      else OrderOf(judged[..i])
  {
    assert judged[..i + 1][..i] == judged[..i];
  }

  /** One more attempt extends the group of its category by its entry. */
  lemma GroupStep(judged: seq<Option<Diagnostic>>, i: nat, c: Category)
    requires i < |judged|
    ensures GroupOf(judged[..i + 1], c) ==
      if FailsAt(judged, i, c) then GroupOf(judged[..i], c) + [EntryAt(judged, i)] else GroupOf(judged[..i], c)
  {
    assert judged[..i + 1][..i] == judged[..i];
  }

  /** The lines for one reported instance: its attempt and issue, then one
      line per suggestion. */
  method DescribeInstance(error: Instance) returns (text: string)
    ensures text == InstanceText(error)
  {
    text := "  * Attempt " + NatToString(error.attempt) + ": " + error.issue + "\n";
    ghost var head := text;
    var m := 0;
    while m < |error.suggestions|
      invariant 0 <= m <= |error.suggestions|
      invariant text == head + Bulleted(error.suggestions[..m], "    - ")
    {
      assert error.suggestions[..m + 1][..m] == error.suggestions[..m];
      text := text + "    - " + error.suggestions[m] + "\n";
      m := m + 1;
    }
    assert error.suggestions[..m] == error.suggestions;
  }

  /** The loop over `errors[-2:]`: the lines of each recent instance. */
  method DescribeRecent(recent: seq<Instance>) returns (text: string)
    ensures text == InstancesText(recent)
  {
    text := "";
    var k := 0;
    while k < |recent|
      invariant 0 <= k <= |recent|
      invariant text == InstancesText(recent[..k])
    {
      assert recent[..k + 1][..k] == recent[..k];
      var lines := DescribeInstance(recent[k]);
      text := text + lines;
      k := k + 1;
    }
    assert recent[..k] == recent;
  }

  /** The block of one category: its count and its last two instances when
      it occurred more than once, nothing otherwise. */
  method ReportCategory(category: Category, errors: seq<Instance>) returns (text: string)
    ensures text == PatternBlock(category, errors)
  {
    text := "";
    if |errors| > 1 {
      var details := DescribeRecent(errors[|errors| - 2..]);
      text := CountLine(category, |errors|) + details;
    }
  }

  /** The loop over `error_patterns.items()`: a block for every category that
      occurred more than once. */
  method ReportRepeated(order: seq<Category>, groups: map<Category, seq<Instance>>) returns (text: string)
    requires forall c :: c in order ==> c in groups
    ensures text == Concat(BlockTexts(groups, order))
  {
    text := "";
    var j := 0;
    while j < |order|
      invariant 0 <= j <= |order|
      invariant text == Concat(BlockTexts(groups, order[..j]))
    {
      var block := ReportCategory(order[j], groups[order[j]]);
      BlockTextsAppend(groups, order, j);
      ConcatAppend(BlockTexts(groups, order[..j]), block);
      text := text + block;
      j := j + 1;
    }
    assert order[..j] == order;
  }

  /** The strategy hints: one line for each of the import, syntax, name and
      type categories that is a key of `error_patterns`. */
  method StrategyHints(order: seq<Category>, groups: map<Category, seq<Instance>>) returns (text: string)
    requires forall c :: c in groups <==> c in order
    ensures text == Concat(HintLines(order))
  {
    text := "";
    if Import in groups {
      text := text + ImportHint;
    }
    ghost var lines := HintIf(Import, order);
    HintStep([], Import, order);
    if Syntax in groups {
      text := text + SyntaxHint;
    }
    HintStep(lines, Syntax, order);
    lines := lines + HintIf(Syntax, order);
    if Name in groups {
      text := text + NameHint;
    }
    HintStep(lines, Name, order);
    lines := lines + HintIf(Name, order);
    if Type in groups {
      text := text + TypeHint;
    }
    HintStep(lines, Type, order);
    lines := lines + HintIf(Type, order);
  }

  /** Adding one category's hint line to the joined lines. */
  lemma HintStep(lines: seq<string>, c: Category, order: seq<Category>)
    ensures Concat(lines + HintIf(c, order)) ==
            Concat(lines) + (if c in order && HintFor(c).Some? then HintFor(c).value else "")
  {
    if c in order && HintFor(c).Some? {
      ConcatAppend(lines, HintFor(c).value);
    } else {
      assert lines + HintIf(c, order) == lines;
    }
  }

  /** `ErrorAnalyzer.build_learning_context(all_attempts)`. */
  method BuildLearningContext(attempts: seq<AttemptRecord>) returns (text: string)
    ensures text == LearningContextText(attempts)
  {
    if attempts == [] {
      return "";
    }
    var order, groups := GroupByCategory(attempts);
    assert (groups == map[]) == (order == []) by {
      if order != [] { assert order[0] in groups; }
    }
    var section := "";
    if groups != map[] {
      var blocks := ReportRepeated(order, groups);
      section := PatternsHeader + blocks;
    }
    var hints := StrategyHints(order, groups);
    text := Header + section + StrategiesHeader + hints;
  }
}
