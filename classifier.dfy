/** `ErrorAnalyzer.categorize_error`: the stderr text of a failed run becomes a
    diagnostic record. The category is chosen by the first signature that
    occurs in the lower-cased text; two regular-expression searches extract a
    module name and an undefined name; a third finds a line number in the
    original text. */
module Classifier {
  import opened Wrappers
  import opened Text

  datatype Category = Syntax | Import | Name | Type | Index | Key | Indentation | Unknown {
    /** The category string stored in the diagnostic record. */
    function Label(): string {
      match this
      case Syntax => "syntax"
      case Import => "import"
      case Name => "name"
      case Type => "type"
      case Index => "index"
      case Key => "key"
      case Indentation => "indentation"
      case Unknown => "unknown"
    }
  }

  /** The record built by the classifier. The record's `syntax_issues` and
      `runtime_issues` lists are never filled nor read, so they are not kept. */
  datatype Diagnostic = Diagnostic(
    category: Category,
    specificIssue: string,
    lineNumber: Option<nat>,
    missingImports: seq<string>,
    suggestions: seq<string>)

  /** The record every classification starts from. */
  const Default := Diagnostic(Unknown, "", None, [], [])

  // ---------------------------------------------------------------------
  // The three regular expressions the classifier searches for.
  // ---------------------------------------------------------------------

  /** `Quoted(prefix, tail)` is the expression `prefix([^']+)'tail`;
      `LineDigits` is `line (\d+)`. Each captures one group. */
  datatype Pattern = Quoted(prefix: string, tail: string) | LineDigits

  const ModulePattern := Quoted("no module named '", "")
  const NamePattern := Quoted("name '", " is not defined")
  const LinePrefix := "line "

  /** What it means for the expression to match at `p` with group `m`: the
      reference against which the scanners below are proved. */
  ghost predicate RegexMatch(s: string, p: nat, pat: Pattern, m: string) {
    match pat
    case Quoted(prefix, tail) =>
      |m| > 0 && (forall i :: 0 <= i < |m| ==> m[i] != '\'') &&
      MatchesAt(s, p, prefix + m + "'" + tail)
    case LineDigits =>
      |m| > 0 && AllDigits(m) && MatchesAt(s, p, LinePrefix + m) &&
      (p + |LinePrefix| + |m| == |s| || !IsDigit(s[p + |LinePrefix| + |m|]))
  }

  /** Index of the first quote at or after `k`, or `|s|` if there is none. */
  function QuoteEnd(s: string, k: nat): (r: nat)
    requires k <= |s|
    ensures k <= r <= |s|
    ensures r < |s| ==> s[r] == '\''
    ensures forall i :: k <= i < r ==> s[i] != '\''
    decreases |s| - k
  {
    if k == |s| || s[k] == '\'' then k else QuoteEnd(s, k + 1)
  }

  /** Index of the first non-digit at or after `k`, or `|s|`. */
  function DigitEnd(s: string, k: nat): (r: nat)
    requires k <= |s|
    ensures k <= r <= |s|
    ensures r < |s| ==> !IsDigit(s[r])
    ensures forall i :: k <= i < r ==> IsDigit(s[i])
    decreases |s| - k
  {
    if k == |s| || !IsDigit(s[k]) then k else DigitEnd(s, k + 1)
  }

  /** The expression anchored at `p`: the captured group, if it matches there.
      The group `[^']+` runs greedily to the next quote; `\d+` to the next
      non-digit. */
  function MatchAt(s: string, p: nat, pat: Pattern): (r: Option<string>)
    ensures pat == LineDigits && r.Some? ==> |r.value| > 0 && AllDigits(r.value)
  {
    match pat
    case Quoted(prefix, tail) =>
      if !MatchesAt(s, p, prefix) then None
      else
        var q := QuoteEnd(s, p + |prefix|);
        if q > p + |prefix| && MatchesAt(s, q, "'" + tail) then Some(s[p + |prefix|..q]) else None
    case LineDigits =>
      if MatchesAt(s, p, LinePrefix) && p + |LinePrefix| < |s| && IsDigit(s[p + |LinePrefix|])
      then Some(s[p + |LinePrefix|..DigitEnd(s, p + |LinePrefix|)])
      else None
  }

  /** `re.search` from position `p` on: the first position where the
      expression matches, tried left to right. */
  function SearchFrom(s: string, p: nat, pat: Pattern): (r: Option<string>)
    requires p <= |s|
    ensures pat == LineDigits && r.Some? ==> AllDigits(r.value)
    decreases |s| - p
  {
    var here := MatchAt(s, p, pat);
    if here.Some? then here
    else if p == |s| then None
    else SearchFrom(s, p + 1, pat)
  }

  /** The result of trying the expression at each position of `s`. */
  ghost function Attempts(s: string, pat: Pattern): (c: seq<Option<string>>)
    ensures |c| == |s| + 1
  {
    seq(|s| + 1, q requires 0 <= q <= |s| => MatchAt(s, q, pat))
  }

  /** The first present entry of `c` from `p` on. */
  ghost function FirstPresent(c: seq<Option<string>>, p: nat): Option<string>
    requires p < |c|
    decreases |c| - p
  {
    if c[p].Some? || p == |c| - 1 then c[p] else FirstPresent(c, p + 1)
  }

  /** `FirstPresent` is the entry at the first present position, or nothing
      when no entry from `p` on is present. */
  lemma {:induction false} FirstPresentSpec(c: seq<Option<string>>, p: nat)
    requires p < |c|
    ensures FirstPresent(c, p).Some? ==>
      exists q :: p <= q < |c| && c[q] == FirstPresent(c, p) && forall q' :: p <= q' < q ==> c[q'].None?
    ensures FirstPresent(c, p).None? ==> forall q :: p <= q < |c| ==> c[q].None?
    decreases |c| - p
  {
    if c[p].None? && p < |c| - 1 {
      FirstPresentSpec(c, p + 1);
      if FirstPresent(c, p).Some? {
        var q :| p + 1 <= q < |c| && c[q] == FirstPresent(c, p) && forall q' :: p + 1 <= q' < q ==> c[q'].None?;
        assert p <= q < |c| && c[q] == FirstPresent(c, p);
      }
    }
  }

  /** `SearchFrom` takes the first present attempt from `p` on. */
  lemma {:induction false} SearchFromIsFirstPresent(s: string, p: nat, pat: Pattern)
    requires p <= |s|
    ensures SearchFrom(s, p, pat) == FirstPresent(Attempts(s, pat), p)
    decreases |s| - p
  {
    var c := Attempts(s, pat);
    assert c[p] == MatchAt(s, p, pat);
    if c[p].None? && p < |s| {
      SearchFromIsFirstPresent(s, p + 1, pat);
    }
  }

  /** `SearchFrom` returns the group at the first position from `p` on where
      the expression matches, and nothing when it matches at none of them. */
  lemma SearchFromFirst(s: string, p: nat, pat: Pattern)
    requires p <= |s|
    ensures SearchFrom(s, p, pat).Some? ==>
      exists q :: p <= q <= |s| && MatchAt(s, q, pat) == SearchFrom(s, p, pat) &&
                  forall q' :: p <= q' < q ==> MatchAt(s, q', pat).None?
    ensures SearchFrom(s, p, pat).None? ==> forall q :: p <= q <= |s| ==> MatchAt(s, q, pat).None?
  {
    var c := Attempts(s, pat);
    SearchFromIsFirstPresent(s, p, pat);
    FirstPresentSpec(c, p);
    if SearchFrom(s, p, pat).Some? {
      var q :| p <= q < |c| && c[q] == FirstPresent(c, p) && forall q' :: p <= q' < q ==> c[q'].None?;
      assert MatchAt(s, q, pat) == c[q];
      forall q' | p <= q' < q ensures MatchAt(s, q', pat).None? {
        assert c[q'] == MatchAt(s, q', pat);
      }
    } else {
      forall q | p <= q <= |s| ensures MatchAt(s, q, pat).None? {
        assert c[q] == MatchAt(s, q, pat);
      }
    }
  }

  /** `re.search(pattern, s)` reduced to its first group. */
  function Search(s: string, pat: Pattern): Option<string> {
    SearchFrom(s, 0, pat)
  }

  /** A quoted group returned by the scanner is a match of the expression. */
  lemma QuotedMatchSound(s: string, p: nat, prefix: string, tail: string, m: string)
    requires MatchAt(s, p, Quoted(prefix, tail)) == Some(m)
    ensures RegexMatch(s, p, Quoted(prefix, tail), m)
  {
    var k := p + |prefix|;
    var q := QuoteEnd(s, k);
    var t := "'" + tail;
    assert m == s[k..q];
    assert s[p..q + |t|] == s[p..k] + s[k..q] + s[q..q + |t|];
    assert prefix + m + "'" + tail == prefix + m + t;
  }

  /** Every match of a quoted expression is found by the scanner. */
  lemma QuotedMatchComplete(s: string, p: nat, prefix: string, tail: string, m: string)
    requires RegexMatch(s, p, Quoted(prefix, tail), m)
    ensures MatchAt(s, p, Quoted(prefix, tail)) == Some(m)
  {
    var k := p + |prefix|;
    var q := k + |m|;
    QuotedPieces(s, p, prefix, m, tail);
    assert QuoteEnd(s, k) == q;
  }

  /** Where `prefix`, `m`, a quote and `tail` occur at `p`, each piece occurs
      in its place. */
  lemma QuotedPieces(s: string, p: nat, prefix: string, m: string, tail: string)
    requires MatchesAt(s, p, prefix + m + "'" + tail)
    ensures var k := p + |prefix|; var q := k + |m|;
      q < |s| && s[k..q] == m && (forall i :: k <= i < q ==> s[i] == m[i - k]) &&
      s[q] == '\'' && MatchesAt(s, p, prefix) && MatchesAt(s, q, "'" + tail)
  {
    var whole := prefix + m + "'" + tail;
    var k, q := p + |prefix|, p + |prefix| + |m|;
    var t := s[p..p + |whole|];
    assert t == whole;
    Sandwich(prefix, m, "'", tail);
    SliceOfSlice(s, p, p + |whole|, 0, |prefix|);
    SliceOfSlice(s, p, p + |whole|, |prefix|, |prefix| + |m|);
    SliceOfSlice(s, p, p + |whole|, |whole| - |"'" + tail|, |whole|);
    forall i | k <= i < q ensures s[i] == m[i - k] {
      assert s[i] == s[k..q][i - k];
    }
    assert s[q] == s[q..q + |"'" + tail|][0];
  }

  /** A digit group returned by the scanner is a match of `line (\d+)`. */
  lemma LineMatchSound(s: string, p: nat, m: string)
    requires MatchAt(s, p, LineDigits) == Some(m)
    ensures RegexMatch(s, p, LineDigits, m)
  {
    var k := p + |LinePrefix|;
    var q := DigitEnd(s, k);
    assert m == s[k..q];
    assert s[p..q] == s[p..k] + s[k..q];
  }

  /** Every match of `line (\d+)` is found by the scanner. */
  lemma LineMatchComplete(s: string, p: nat, m: string)
    requires RegexMatch(s, p, LineDigits, m)
    ensures MatchAt(s, p, LineDigits) == Some(m)
  {
    var k := p + |LinePrefix|;
    var whole := LinePrefix + m;
    var q := k + |m|;
    assert s[p..p + |whole|] == whole;
    assert s[p..k] == LinePrefix by { assert whole[..|LinePrefix|] == LinePrefix; }
    forall i | k <= i < q ensures s[i] == m[i - k] {
      assert s[i] == whole[i - p];
    }
    assert DigitEnd(s, k) == q;
    assert s[k..q] == m;
  }

  /** The anchored scanner agrees with the meaning of the expression: it
      returns exactly the groups the expression can capture at `p`. */
  lemma MatchAtSpec(s: string, p: nat, pat: Pattern, m: string)
    ensures MatchAt(s, p, pat) == Some(m) <==> RegexMatch(s, p, pat, m)
  {
    match pat
    case Quoted(prefix, tail) =>
      if MatchAt(s, p, pat) == Some(m) { QuotedMatchSound(s, p, prefix, tail, m); }
      if RegexMatch(s, p, pat, m) { QuotedMatchComplete(s, p, prefix, tail, m); }
    case LineDigits =>
      if MatchAt(s, p, pat) == Some(m) { LineMatchSound(s, p, m); }
      if RegexMatch(s, p, pat, m) { LineMatchComplete(s, p, m); }
  }

  /** No match before `q` in the scanner's sense means none in the
      expression's sense. */
  lemma NoMatchBefore(s: string, q: nat, pat: Pattern)
    requires q <= |s|
    requires forall q' :: 0 <= q' < q ==> MatchAt(s, q', pat).None?
    ensures forall q', m' :: 0 <= q' < q ==> !RegexMatch(s, q', pat, m')
  {
    forall q', m' | 0 <= q' < q ensures !RegexMatch(s, q', pat, m') {
      MatchAtSpec(s, q', pat, m');
    }
  }

  /** What `Search` returns is the group of the leftmost match. */
  lemma SearchSound(s: string, pat: Pattern, m: string)
    requires Search(s, pat) == Some(m)
    ensures exists q: nat :: RegexMatch(s, q, pat, m) &&
                             forall q', m' :: 0 <= q' < q ==> !RegexMatch(s, q', pat, m')
  {
    SearchFromFirst(s, 0, pat);
    var q :| 0 <= q <= |s| && MatchAt(s, q, pat) == Some(m) &&
             forall q' :: 0 <= q' < q ==> MatchAt(s, q', pat).None?;
    MatchAtSpec(s, q, pat, m);
    NoMatchBefore(s, q, pat);
  }

  /** The leftmost match is what `Search` returns. */
  lemma SearchComplete(s: string, pat: Pattern, q: nat, m: string)
    requires RegexMatch(s, q, pat, m)
    requires forall q', m' :: 0 <= q' < q ==> !RegexMatch(s, q', pat, m')
    ensures Search(s, pat) == Some(m)
  {
    MatchAtSpec(s, q, pat, m);
    SearchFromFirst(s, 0, pat);
    var r := Search(s, pat);
    assert r.Some?;
    var q2 :| 0 <= q2 <= |s| && MatchAt(s, q2, pat) == r &&
              forall q' :: 0 <= q' < q2 ==> MatchAt(s, q', pat).None?;
    MatchAtSpec(s, q2, pat, r.value);
    assert q2 == q;
  }

  /** `Search` is leftmost-match search: it returns the group of the match
      that starts first, and nothing exactly when the expression matches
      nowhere. */
  lemma SearchIsLeftmostMatch(s: string, pat: Pattern, m: string)
    ensures Search(s, pat) == Some(m) <==>
      exists q: nat :: RegexMatch(s, q, pat, m) &&
                       forall q', m' :: 0 <= q' < q ==> !RegexMatch(s, q', pat, m')
    ensures Search(s, pat).None? <==> forall q: nat, m' :: !RegexMatch(s, q, pat, m')
  {
    if Search(s, pat) == Some(m) {
      SearchSound(s, pat, m);
    }
    if exists q: nat :: RegexMatch(s, q, pat, m) &&
                        forall q', m' :: 0 <= q' < q ==> !RegexMatch(s, q', pat, m') {
      var q: nat :| RegexMatch(s, q, pat, m) &&
                    forall q', m' :: 0 <= q' < q ==> !RegexMatch(s, q', pat, m');
      SearchComplete(s, pat, q, m);
    }
    if Search(s, pat).None? {
      SearchFromFirst(s, 0, pat);
      forall q: nat, m' ensures !RegexMatch(s, q, pat, m') {
        MatchAtSpec(s, q, pat, m');
      }
    } else {
      SearchSound(s, pat, Search(s, pat).value);
    }
  }

  // ---------------------------------------------------------------------
  // Classification.
  // ---------------------------------------------------------------------

  /** The integer the line-number search yields, if any (`int(group(1))`). */
  function LineNumber(stderr: string): Option<nat> {
    match Search(stderr, LineDigits)
    case Some(ds) => Some(DecimalValue(ds))
    case None => None
  }

  /** The branch of the if/elif chain taken on the lower-cased text `low`. */
  function ChainCategory(low: string): Category {
    if Contains(low, "syntaxerror") then Syntax
    else if Contains(low, "modulenotfounderror") || Contains(low, "importerror") then Import
    else if Contains(low, "nameerror") then Name
    else if Contains(low, "typeerror") then Type
    else if Contains(low, "indexerror") then Index
    else if Contains(low, "keyerror") then Key
    else if Contains(low, "indentationerror") then Indentation
    else Unknown
  }

  /** The record the taken branch fills in, before the line-number pass. */
  function Signature(low: string): Diagnostic {
    Branch(ChainCategory(low), low)
  }

  /** The record the branch for category `c` fills in from the lower-cased
      text `low`; every branch keeps its category. */
  function Branch(c: Category, low: string): (d: Diagnostic)
    ensures d.category == c
  {
    match c
    case Syntax =>
      if Contains(low, "invalid syntax") then
        Diagnostic(Syntax, "invalid_syntax", None, [], ["Check parentheses, brackets, and indentation"])
      else if Contains(low, "unexpected eof") then
        Diagnostic(Syntax, "unexpected_eof", None, [], ["Missing closing brackets or incomplete statements"])
      else Default.(category := Syntax)
    case Import =>
      (match Search(low, ModulePattern)
       case Some(moduleName) =>
         Diagnostic(Import, "", None, [moduleName],
                    ["Add import for " + moduleName + " or use standard library alternative"])
       case None => Default.(category := Import))
    case Name =>
      (match Search(low, NamePattern)
       case Some(name) =>
         Diagnostic(Name, "undefined_variable: " + name, None, [],
                    ["Define variable '" + name + "' before using it"])
       case None => Default.(category := Name))
    case Type =>
      if Contains(low, "takes") && Contains(low, "positional argument") then
        Diagnostic(Type, "wrong_arguments", None, [], ["Check function arguments and their count"])
      else if Contains(low, "unsupported operand") then
        Diagnostic(Type, "incompatible_types", None, [], ["Check data types in operations"])
      else Default.(category := Type)
    case Index =>
      Diagnostic(Index, "", None, [], ["Check list/array bounds before accessing"])
    case Key =>
      Diagnostic(Key, "", None, [], ["Check if dictionary key exists before accessing"])
    case Indentation =>
      Diagnostic(Indentation, "", None, [], ["Fix indentation - use consistent spaces or tabs"])
    case Unknown => Default
  }

  /** `ErrorAnalyzer.categorize_error(stderr)`. */
  function CategorizeError(stderr: string): Diagnostic {
    if stderr == "" then Default
    else Signature(Lower(stderr)).(lineNumber := LineNumber(stderr))
  }

  // ---------------------------------------------------------------------
  // The signature table: an independent statement of the category order.
  // ---------------------------------------------------------------------

  /** The triggers of each category, in the order they are tried. */
  const Signatures: seq<(Category, seq<string>)> := [
    (Syntax, ["syntaxerror"]),
    (Import, ["modulenotfounderror", "importerror"]),
    (Name, ["nameerror"]),
    (Type, ["typeerror"]),
    (Index, ["indexerror"]),
    (Key, ["keyerror"]),
    (Indentation, ["indentationerror"])
  ]

  predicate AnyTrigger(low: string, triggers: seq<string>) {
    exists t | t in triggers :: Contains(low, t)
  }

  /** The first entry at index `k` or later one of whose triggers occurs in
      `low`; `Unknown` when none does. */
  function FirstSignatureFrom(table: seq<(Category, seq<string>)>, k: nat, low: string): Category
    decreases |table| - k
  {
    if k >= |table| then Unknown
    else if AnyTrigger(low, table[k].1) then table[k].0
    else FirstSignatureFrom(table, k + 1, low)
  }

  function FirstSignature(table: seq<(Category, seq<string>)>, low: string): Category {
    FirstSignatureFrom(table, 0, low)
  }

  /** Walking a table whose entries are never `Unknown` gives `Unknown`
      exactly when no trigger of any entry occurs, and otherwise the category
      of the first entry that fires, every earlier entry being silent. */
  lemma {:induction false} FirstSignatureSpec(table: seq<(Category, seq<string>)>, k: nat, low: string)
    requires forall j :: 0 <= j < |table| ==> table[j].0 != Unknown
    ensures FirstSignatureFrom(table, k, low) == Unknown <==>
            forall j :: k <= j < |table| ==> !AnyTrigger(low, table[j].1)
    ensures FirstSignatureFrom(table, k, low) != Unknown ==>
            exists j :: k <= j < |table| && table[j].0 == FirstSignatureFrom(table, k, low) &&
                        AnyTrigger(low, table[j].1) &&
                        forall i :: k <= i < j ==> !AnyTrigger(low, table[i].1)
    decreases |table| - k
  {
    if k < |table| && !AnyTrigger(low, table[k].1) {
      FirstSignatureSpec(table, k + 1, low);
    }
  }

  /** The if/elif chain picks the first table entry whose trigger occurs. */
  lemma SignatureFollowsTable(low: string)
    ensures ChainCategory(low) == FirstSignature(Signatures, low)
  {
    var t := Signatures;
    assert AnyTrigger(low, t[0].1) <==> Contains(low, "syntaxerror");
    assert AnyTrigger(low, t[1].1) <==> Contains(low, "modulenotfounderror") || Contains(low, "importerror");
    assert AnyTrigger(low, t[2].1) <==> Contains(low, "nameerror");
    assert AnyTrigger(low, t[3].1) <==> Contains(low, "typeerror");
    assert AnyTrigger(low, t[4].1) <==> Contains(low, "indexerror");
    assert AnyTrigger(low, t[5].1) <==> Contains(low, "keyerror");
    assert AnyTrigger(low, t[6].1) <==> Contains(low, "indentationerror");
    assert FirstSignatureFrom(t, 7, low) == Unknown;
    assert FirstSignatureFrom(t, 6, low) == if AnyTrigger(low, t[6].1) then Indentation else Unknown;
    assert FirstSignatureFrom(t, 5, low) == if AnyTrigger(low, t[5].1) then Key else FirstSignatureFrom(t, 6, low);
    assert FirstSignatureFrom(t, 4, low) == if AnyTrigger(low, t[4].1) then Index else FirstSignatureFrom(t, 5, low);
    assert FirstSignatureFrom(t, 3, low) == if AnyTrigger(low, t[3].1) then Type else FirstSignatureFrom(t, 4, low);
    assert FirstSignatureFrom(t, 2, low) == if AnyTrigger(low, t[2].1) then Name else FirstSignatureFrom(t, 3, low);
    assert FirstSignatureFrom(t, 1, low) == if AnyTrigger(low, t[1].1) then Import else FirstSignatureFrom(t, 2, low);
    assert FirstSignatureFrom(t, 0, low) == if AnyTrigger(low, t[0].1) then Syntax else FirstSignatureFrom(t, 1, low);
  }

  /** The category of `categorize_error` is the first table entry whose
      trigger occurs in the lower-cased text: the if/elif chain is the ordered
      table syntax, import, name, type, index, key, indentation. */
  lemma CategoryFollowsTable(stderr: string)
    ensures CategorizeError(stderr).category == FirstSignature(Signatures, Lower(stderr))
  {
    if stderr == "" {
      assert Lower(stderr) == "";
      NothingInEmpty();
      SignatureFollowsTable("");
    } else {
      SignatureFollowsTable(Lower(stderr));
      assert Signature(Lower(stderr)).category == ChainCategory(Lower(stderr));
    }
  }

  /** Exactly one category is assigned, and it is `unknown` precisely when no
      signature occurs in the lower-cased text; any other category's trigger
      occurs while no earlier category's trigger does. */
  lemma CategoryIsFirstMatch(stderr: string)
    ensures var c := CategorizeError(stderr).category;
      (c == Unknown <==> forall j :: 0 <= j < |Signatures| ==> !AnyTrigger(Lower(stderr), Signatures[j].1)) &&
      (c != Unknown ==> exists j :: 0 <= j < |Signatures| && Signatures[j].0 == c &&
                          AnyTrigger(Lower(stderr), Signatures[j].1) &&
                          forall i :: 0 <= i < j ==> !AnyTrigger(Lower(stderr), Signatures[i].1))
  {
    CategoryFollowsTable(stderr);
    assert forall j :: 0 <= j < |Signatures| ==> Signatures[j].0 != Unknown;
    FirstSignatureSpec(Signatures, 0, Lower(stderr));
  }

  // ---------------------------------------------------------------------
  // Properties of the classifier.
  // ---------------------------------------------------------------------

  /** Empty stderr yields the default record. */
  lemma EmptyIsDefault()
    ensures CategorizeError("") == Diagnostic(Unknown, "", None, [], [])
  {
  }

  /** What the if/elif chain can produce, whatever the text. */
  lemma SignatureShape(low: string)
    ensures var d := Signature(low);
      d.lineNumber == None &&
      |d.suggestions| <= 1 && |d.missingImports| <= 1 &&
      (d.category == Unknown ==> d.suggestions == [] && d.missingImports == [] && d.specificIssue == "") &&
      (d.missingImports != [] ==> d.category == Import)
  {
    BranchShape(ChainCategory(low), low);
  }

  /** What any one branch can produce. */
  lemma BranchShape(c: Category, low: string)
    ensures var d := Branch(c, low);
      d.lineNumber == None &&
      |d.suggestions| <= 1 && |d.missingImports| <= 1 &&
      (c == Unknown ==> d.suggestions == [] && d.missingImports == [] && d.specificIssue == "") &&
      (d.missingImports != [] ==> c == Import)
  {
    match c
    case Syntax =>
    case Import =>
    case Name =>
    case Type =>
    case Index =>
    case Key =>
    case Indentation =>
    case Unknown =>
  }

  /** The import branch of the chain. */
  lemma SignatureImport(low: string)
    requires Signature(low).category == Import
    ensures var d := Signature(low);
      var found := Search(low, ModulePattern);
      d.specificIssue == "" &&
      (found.Some? ==> d.missingImports == [found.value] &&
                       d.suggestions == ["Add import for " + found.value + " or use standard library alternative"]) &&
      (found.None? ==> d.missingImports == [] && d.suggestions == [])
  {
    assert ChainCategory(low) == Import;
  }

  /** The name branch of the chain. */
  lemma SignatureName(low: string)
    requires Signature(low).category == Name
    ensures var d := Signature(low);
      var found := Search(low, NamePattern);
      (found.Some? ==> d.specificIssue == "undefined_variable: " + found.value &&
                       d.suggestions == ["Define variable '" + found.value + "' before using it"]) &&
      (found.None? ==> d.specificIssue == "" && d.suggestions == [])
  {
    assert ChainCategory(low) == Name;
  }

  /** At most one suggestion and at most one missing import per call; an
      `unknown` record carries no suggestion, no missing import and no issue. */
  lemma SuggestionBounds(stderr: string)
    ensures var d := CategorizeError(stderr);
      |d.suggestions| <= 1 && |d.missingImports| <= 1 &&
      (d.category == Unknown ==> d.suggestions == [] && d.missingImports == [] && d.specificIssue == "") &&
      (d.missingImports != [] ==> d.category == Import)
  {
    if stderr != "" { SignatureShape(Lower(stderr)); }
  }

  /** Import errors: the missing module is the group of the leftmost
      `no module named '...'` in the lower-cased text, and a suggestion is
      added exactly when that expression matches. */
  lemma ImportExtraction(stderr: string)
    requires CategorizeError(stderr).category == Import
    ensures var d := CategorizeError(stderr);
      var found := Search(Lower(stderr), ModulePattern);
      (found.Some? ==> d.missingImports == [found.value] &&
                       d.suggestions == ["Add import for " + found.value + " or use standard library alternative"]) &&
      (found.None? ==> d.missingImports == [] && d.suggestions == []) &&
      d.specificIssue == ""
  {
    SignatureImport(Lower(stderr));
  }

  /** Name errors: the issue names the group of the leftmost
      `name '...' is not defined`, after a colon and a space. */
  lemma NameExtraction(stderr: string)
    requires CategorizeError(stderr).category == Name
    ensures var d := CategorizeError(stderr);
      var found := Search(Lower(stderr), NamePattern);
      (found.Some? ==> d.specificIssue == "undefined_variable: " + found.value &&
                       d.suggestions == ["Define variable '" + found.value + "' before using it"]) &&
      (found.None? ==> d.specificIssue == "" && d.suggestions == [])
  {
    SignatureName(Lower(stderr));
  }

  /** The extracted module name is non-empty, quote-free and free of ASCII
      capitals, since it is read from the lower-cased text. */
  lemma ModuleNameShape(stderr: string, m: string)
    requires m in CategorizeError(stderr).missingImports
    ensures |m| > 0 && forall i :: 0 <= i < |m| ==> m[i] != '\'' && !('A' <= m[i] <= 'Z')
  {
    SuggestionBounds(stderr);
    ImportExtraction(stderr);
    var low := Lower(stderr);
    assert Search(low, ModulePattern) == Some(m);
    QuotedGroupFromText(low, "no module named '", "", m);
    forall i | 0 <= i < |m| ensures !('A' <= m[i] <= 'Z') {
      var k :| 0 <= k < |low| && low[k] == m[i];
    }
  }

  /** A group found by a quoted expression is non-empty, has no quote, and
      is made of characters of the searched text. */
  lemma QuotedGroupFromText(s: string, prefix: string, tail: string, m: string)
    requires Search(s, Quoted(prefix, tail)) == Some(m)
    ensures |m| > 0 && forall i :: 0 <= i < |m| ==> m[i] != '\'' && m[i] in s
  {
    SearchSound(s, Quoted(prefix, tail), m);
    var q: nat :| RegexMatch(s, q, Quoted(prefix, tail), m);
    var whole := prefix + m + "'" + tail;
    assert s[q..q + |whole|] == whole;
    forall i | 0 <= i < |m| ensures m[i] in s {
      assert m[i] == whole[|prefix| + i] == s[q + |prefix| + i];
    }
  }

  /** For non-empty stderr, whatever the category (including `unknown`), the
      line number is the value of the digit run after the leftmost `line `
      followed by a digit in the original, case-sensitive text; with no such
      occurrence it stays unset. */
  lemma LineNumberAnyCategory(stderr: string)
    requires stderr != ""
    ensures CategorizeError(stderr).lineNumber.Some? <==>
            exists q: nat, ds :: RegexMatch(stderr, q, LineDigits, ds)
    ensures forall q: nat, ds ::
              (RegexMatch(stderr, q, LineDigits, ds) &&
               forall q', ds' :: 0 <= q' < q ==> !RegexMatch(stderr, q', LineDigits, ds')) ==>
              CategorizeError(stderr).lineNumber == Some(DecimalValue(ds))
  {
    if Search(stderr, LineDigits).Some? {
      SearchIsLeftmostMatch(stderr, LineDigits, Search(stderr, LineDigits).value);
    } else {
      SearchIsLeftmostMatch(stderr, LineDigits, "");
    }
    forall q: nat, ds | RegexMatch(stderr, q, LineDigits, ds) &&
              (forall q', ds' :: 0 <= q' < q ==> !RegexMatch(stderr, q', LineDigits, ds'))
      ensures CategorizeError(stderr).lineNumber == Some(DecimalValue(ds))
    {
      SearchIsLeftmostMatch(stderr, LineDigits, ds);
    }
  }

  /** A printed line number read back by the classifier: if the leftmost
      `line <digits>` in the text is `line ` followed by `str(n)`, the record's
      line number is `n`. */
  lemma LineNumberRoundTrip(stderr: string, q: nat, n: nat)
    requires RegexMatch(stderr, q, LineDigits, NatToString(n))
    requires forall q', ds' :: 0 <= q' < q ==> !RegexMatch(stderr, q', LineDigits, ds')
    ensures CategorizeError(stderr).lineNumber == Some(n)
  {
    LineNumberAnyCategory(stderr);
    DecimalRoundTrip(n);
  }
}
