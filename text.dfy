/** String helpers shared by the classifier and the prompt builders: substring
    search, ASCII case mapping, and decimal printing and parsing of integers
    (Python's `str(int)` and `int(digits)`). */
module Text {

  /** True when `pat` occurs in `s` starting at index `p`. */
  predicate MatchesAt(s: string, p: nat, pat: string) {
    p + |pat| <= |s| && s[p..p + |pat|] == pat
  }

  /** Python's `pat in s` on strings: an occurrence at `p` or later. */
  predicate ContainsFrom(s: string, pat: string, p: nat)
    decreases |s| - p
  {
    p + |pat| <= |s| && (MatchesAt(s, p, pat) || ContainsFrom(s, pat, p + 1))
  }

  predicate Contains(s: string, pat: string) {
    ContainsFrom(s, pat, 0)
  }

  function LowerChar(c: char): char {
    if 'A' <= c <= 'Z' then (c as int + 32) as char else c
  }

  function UpperChar(c: char): char {
    if 'a' <= c <= 'z' then (c as int - 32) as char else c
  }

  /** `str.lower()`, restricted to ASCII letters. */
  function Lower(s: string): (r: string)
    ensures |r| == |s|
    ensures forall i :: 0 <= i < |s| ==> r[i] == LowerChar(s[i])
  {
    seq(|s|, i requires 0 <= i < |s| => LowerChar(s[i]))
  }

  /** `str.upper()`, restricted to ASCII letters. */
  function Upper(s: string): (r: string)
    ensures |r| == |s|
    ensures forall i :: 0 <= i < |s| ==> r[i] == UpperChar(s[i])
  {
    seq(|s|, i requires 0 <= i < |s| => UpperChar(s[i]))
  }

  predicate IsDigit(c: char) {
    '0' <= c <= '9'
  }

  predicate AllDigits(s: string) {
    forall i :: 0 <= i < |s| ==> IsDigit(s[i])
  }

  function DigitValue(c: char): nat
    requires IsDigit(c)
  {
    c as int - '0' as int
  }

  function DigitChar(d: nat): (c: char)
    requires d < 10
    ensures IsDigit(c) && DigitValue(c) == d
  {
    ('0' as int + d) as char
  }

  /** `int(ds)` for a string of decimal digits, read most significant first. */
  function DecimalValue(ds: string): nat
    requires AllDigits(ds)
  {
    if ds == [] then 0
    else DecimalValue(ds[..|ds| - 1]) * 10 + DigitValue(ds[|ds| - 1])
  }

  /** `str(n)` for a natural number: a non-empty run of digits with no
      superfluous leading zero. */
  function NatToString(n: nat): (r: string)
    ensures |r| > 0 && AllDigits(r)
    ensures r[0] == '0' ==> n == 0
  {
    if n < 10 then [DigitChar(n)] else NatToString(n / 10) + [DigitChar(n % 10)]
  }

  /** `str(i)` for any integer, with a leading minus sign when negative.
      The two clauses only expose the definition at call sites; what the
      text means is stated by `IntToStringReadsBack`. */
  function IntToString(i: int): (r: string)
    ensures i >= 0 ==> r == NatToString(i)
    ensures i < 0 ==> r == "-" + NatToString(-i)
  {
    if i < 0 then "-" + NatToString(-i) else NatToString(i)
  }

  /** Joining strings end to end (`"".join(items)`). */
  function Concat(items: seq<string>): string {
    if items == [] then "" else Concat(items[..|items| - 1]) + items[|items| - 1]
  }

  lemma ConcatAppend(items: seq<string>, last: string)
    ensures Concat(items + [last]) == Concat(items) + last
  {
    assert (items + [last])[..|items|] == items;
  }

  /** Joining two runs of strings is joining each and concatenating. */
  lemma {:induction false} ConcatJoin(xs: seq<string>, ys: seq<string>)
    ensures Concat(xs + ys) == Concat(xs) + Concat(ys)
    decreases |ys|
  {
    if ys != [] {
      var m := |ys| - 1;
      assert xs + ys == (xs + ys[..m]) + [ys[m]];
      assert ys == ys[..m] + [ys[m]];
      ConcatAppend(xs + ys[..m], ys[m]);
      ConcatAppend(ys[..m], ys[m]);
      ConcatJoin(xs, ys[..m]);
    } else {
      assert xs + ys == xs;
    }
  }

  /** A slice of a slice is a slice of the whole. */
  lemma SliceOfSlice<T>(xs: seq<T>, a: nat, b: nat, c: nat, d: nat)
    requires a <= b <= |xs| && c <= d <= b - a
    ensures xs[a..b][c..d] == xs[a + c..a + d]
  {
    forall i | 0 <= i < d - c ensures xs[a..b][c..d][i] == xs[a + c..a + d][i] {
      assert xs[a..b][c..d][i] == xs[a..b][c + i] == xs[a + c + i];
    }
  }

  /** A sequence is what precedes index `j`, the element there, and what
      follows it. */
  lemma SplitAround<T>(xs: seq<T>, j: nat)
    requires j < |xs|
    ensures xs == (xs[..j] + [xs[j]]) + xs[j + 1..]
  {
    assert xs[..j + 1] == xs[..j] + [xs[j]];
    assert xs == xs[..j + 1] + xs[j + 1..];
  }

  /** Joining is the join of what precedes item `j`, item `j`, and the join
      of what follows it. */
  lemma ConcatSplit(items: seq<string>, j: nat)
    requires j < |items|
    ensures Concat(items) == Concat(items[..j]) + items[j] + Concat(items[j + 1..])
  {
    var front, item, back := items[..j], items[j], items[j + 1..];
    var upTo := front + [item];
    SplitAround(items, j);
    ConcatJoin(upTo, back);
    ConcatAppend(front, item);
  }

  /** A text made of a head, a middle part, a marker and a tail opens with
      the head and contains the marker. */
  lemma Framed(head: string, middle: string, marker: string, tail: string)
    ensures (head + middle + marker + tail)[..|head|] == head
    ensures Contains(head + middle + marker + tail, marker)
  {
    ContainsMiddle(head + middle, marker, tail);
  }

  /** A text built as `head + middle + next + tail` opens with `head` and
      closes with `next + tail`, and leaving out the middle gives the same text
      exactly when the middle is empty. */
  lemma Bracketed(head: string, middle: string, next: string, tail: string)
    ensures var s := head + middle + next + tail;
      |s| >= |head| + |next| + |tail| &&
      s[..|head|] == head &&
      s[|head| + |middle|..|head| + |middle| + |next|] == next &&
      s[|s| - |next + tail|..] == next + tail &&
      s[|s| - |tail|..] == tail
    ensures middle == "" <==> head + middle + next + tail == head + next + tail
  {
    var s := head + middle + next + tail;
    assert s == head + middle + (next + tail);
    if middle != "" {
      assert |s| != |head + next + tail|;
    }
  }

  /** A string is a prefix of itself extended. */
  lemma FrontIsPrefix(front: string, rest: string)
    ensures |front + rest| == |front| + |rest| && (front + rest)[..|front|] == front
  {
  }

  /** A common front cancels. */
  lemma FrontCancels(front: string, x: string, y: string)
    ensures front + x == front + y <==> x == y
  {
    if front + x == front + y {
      assert x == (front + x)[|front|..] && y == (front + y)[|front|..];
    }
  }

  /** A text built as `head + middle + next + last` splits back into its
      parts: the head, the middle after it, and `next + last` and `last` at
      its end. */
  lemma Sandwich(head: string, middle: string, next: string, last: string)
    ensures var s := head + middle + next + last;
      var t := next + last;
      |s| == |head| + |middle| + |t| &&
      s[..|head|] == head &&
      s[|head|..|head| + |middle|] == middle &&
      s[|s| - |t|..] == t &&
      s[|s| - |last|..] == last
  {
    var s := head + middle + next + last;
    assert s == (head + middle) + (next + last);
  }

  /** A string occurs in any text that has it as a middle part. */
  lemma ContainsMiddle(front: string, mid: string, back: string)
    ensures Contains(front + mid + back, mid)
  {
    var s := front + mid + back;
    assert s[|front|..|front| + |mid|] == mid;
    assert MatchesAt(s, |front|, mid);
    ContainsSpec(s, mid);
  }

  /** One `bullet + item + "\n"` line per item, in order: the text an
      `for item in items: text += f"{bullet}{item}\n"` loop accumulates. */
  function Bulleted(items: seq<string>, bullet: string): string {
    if items == [] then ""
    else Bulleted(items[..|items| - 1], bullet) + bullet + items[|items| - 1] + "\n"
  }

  /** Printing a number and reading it back gives the number. */
  lemma {:induction false} DecimalRoundTrip(n: nat)
    ensures DecimalValue(NatToString(n)) == n
  {
    var r := NatToString(n);
    if n >= 10 {
      var front := NatToString(n / 10);
      assert r == front + [DigitChar(n % 10)];
      assert r[..|r| - 1] == front;
      DecimalRoundTrip(n / 10);
    }
  }

  /** `str(i)` reads back as `i`: the digits after an optional minus sign
      denote the magnitude, and the sign is there exactly when `i` is
      negative. */
  lemma IntToStringReadsBack(i: int)
    ensures i >= 0 ==> AllDigits(IntToString(i)) && DecimalValue(IntToString(i)) == i
    ensures i < 0 ==> |IntToString(i)| > 1 && IntToString(i)[0] == '-' &&
                      AllDigits(IntToString(i)[1..]) && DecimalValue(IntToString(i)[1..]) == -i
  {
    if i >= 0 {
      DecimalRoundTrip(i);
    } else {
      assert IntToString(i)[1..] == NatToString(-i);
      DecimalRoundTrip(-i);
    }
  }

  /** A digit string with a non-zero first digit denotes a positive number. */
  lemma {:induction false} LeadingDigitPositive(ds: string)
    requires |ds| > 0 && AllDigits(ds) && ds[0] != '0'
    ensures DecimalValue(ds) >= 1
  {
    if |ds| > 1 {
      LeadingDigitPositive(ds[..|ds| - 1]);
    }
  }

  /** Reading a canonical digit string and printing the value back gives the
      same string: the other half of the round trip. */
  lemma {:induction false} DecimalCanonical(ds: string)
    requires |ds| > 0 && AllDigits(ds)
    requires ds[0] == '0' ==> |ds| == 1
    ensures NatToString(DecimalValue(ds)) == ds
  {
    var v := DecimalValue(ds);
    if |ds| > 1 {
      var front := ds[..|ds| - 1];
      LeadingDigitPositive(front);
      DecimalCanonical(front);
      assert v / 10 == DecimalValue(front) && v % 10 == DigitValue(ds[|ds| - 1]);
      assert ds == front + [ds[|ds| - 1]];
    }
  }

  /** No non-empty string occurs in the empty string. */
  lemma NothingInEmpty()
    ensures forall pat :: |pat| > 0 ==> !Contains("", pat)
  {
  }

  /** The scan finds an occurrence exactly when there is one. */
  lemma {:induction false} ContainsFromSpec(s: string, pat: string, p: nat)
    ensures ContainsFrom(s, pat, p) <==> exists q :: p <= q && MatchesAt(s, q, pat)
    decreases |s| - p
  {
    if p + |pat| <= |s| {
      ContainsFromSpec(s, pat, p + 1);
      if exists q :: p <= q && MatchesAt(s, q, pat) {
        var q :| p <= q && MatchesAt(s, q, pat);
        assert q == p || (p + 1 <= q && MatchesAt(s, q, pat));
      }
    }
  }

  /** `pat in s` holds exactly when `pat` occurs at some index of `s`. */
  lemma ContainsSpec(s: string, pat: string)
    ensures Contains(s, pat) <==> exists q: nat :: MatchesAt(s, q, pat)
  {
    ContainsFromSpec(s, pat, 0);
  }
}
