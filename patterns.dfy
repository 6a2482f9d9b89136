/**
 * The regular expressions of src/utils/ocr.ts.  Each is written as the
 * function that yields the match JavaScript's backtracking matcher finds:
 * the leftmost start position, and at that position the alternative the
 * greedy quantifiers try first.  None of these expressions has the `u`
 * flag, and without it the `i` flag never folds a non-ASCII character onto
 * an ASCII one, so a case-insensitive class is exactly its ASCII letters.
 */
module Patterns {
  import opened Types
  import opened Text

  /** `[A-Z0-9-]`. */
  predicate IsIdChar(c: char) { IsUpper(c) || IsDigit(c) || c == '-' }

  /** `[A-Z0-9-]` under the `i` flag. */
  predicate IsIdCharIgnoreCase(c: char) { IsLetter(c) || IsDigit(c) || c == '-' }

  /** `[a-z\s]` under the `i` flag. */
  predicate IsLetterOrSpace(c: char) { IsLetter(c) || IsSpace(c) }

  /** `[/-]`. */
  predicate IsDateSep(c: char) { c == '/' || c == '-' }

  /** `[:\s]`. */
  predicate IsColonOrSpace(c: char) { c == ':' || IsSpace(c) }

  /** What `.` matches. */
  predicate IsDotChar(c: char) { !IsLineTerminator(c) }

  // ---------------------------------------------------------------------
  // Runs of one character class: /[A-Z0-9-]{5,}/ and /[A-Z0-9-]{5,}/i

  /**
   * Leftmost position at or after `from` where `p{min,}` matches; the greedy
   * quantifier then takes the whole run of `p` characters from there.
   */
  function RunStart(s: string, p: char -> bool, min: nat, from: nat): (r: Option<nat>)
    requires from <= |s|
    ensures r.Some? ==> from <= r.value <= |s| && Span(s, r.value, p) - r.value >= min
    ensures r.Some? ==> forall j | from <= j < r.value :: Span(s, j, p) - j < min
    ensures r.None? ==> forall j | from <= j <= |s| :: Span(s, j, p) - j < min
    decreases |s| - from
  {
    if Span(s, from, p) - from >= min then Some(from)
    else if from == |s| then None
    else RunStart(s, p, min, from + 1)
  }

  /**
   * `s.match(/p{min,}/)[0]`, or `None` for `null`: the whole run of `p`
   * characters at the leftmost position where at least `min` of them start.
   */
  function RunMatch(s: string, p: char -> bool, min: nat): (r: Option<string>)
    ensures r.None? <==> forall j | 0 <= j <= |s| :: Span(s, j, p) - j < min
    ensures r.Some? ==> |r.value| >= min && All(r.value, p) && Includes(s, r.value)
    ensures r.Some? ==>
      exists i | 0 <= i <= |s| - |r.value| ::
        IncludesAt(s, r.value, i)
        && (forall j | 0 <= j < i :: Span(s, j, p) - j < min)
        && (i + |r.value| == |s| || !p(s[i + |r.value|]))
  {
    match RunStart(s, p, min, 0)
    case None => None
    case Some(i) =>
      var e := Span(s, i, p);
      assert Span(s, i, p) - i >= min;
      RunAt(s, p, min, i);
      Some(s[i..e])
  }

  /** The run `RunMatch` reports when the leftmost run of `min` starts at `i`. */
  lemma RunAt(s: string, p: char -> bool, min: nat, i: nat)
    requires RunStart(s, p, min, 0) == Some(i)
    ensures var e := Span(s, i, p);
      |s[i..e]| >= min && All(s[i..e], p) && IncludesAt(s, s[i..e], i)
      && (forall j | 0 <= j < i :: Span(s, j, p) - j < min)
      && (e == |s| || !p(s[e]))
  {
    var e := Span(s, i, p);
    forall k | 0 <= k < e - i ensures p(s[i..e][k]) {
      assert s[i..e][k] == s[i + k];
    }
  }

  /** `line.match(/[A-Z0-9-]{5,}/i)`: five or more letters, digits or hyphens, in either case. */
  function IdRunIgnoreCase(line: string): Option<string> {
    RunMatch(line, IsIdCharIgnoreCase, 5)
  }

  /** `line.match(/[A-Z0-9-]{5,}/)`: five or more upper-case letters, digits or hyphens. */
  function IdRun(line: string): Option<string> {
    RunMatch(line, IsIdChar, 5)
  }

  /** `/^[A-Z0-9-]{6,15}$/.test(line)`. */
  predicate IsStandaloneId(line: string) {
    6 <= |line| <= 15 && All(line, IsIdChar)
  }

  /** `/^[A-Z0-9-]{5,}$/i.test(text)`. */
  predicate IsIdLike(text: string) {
    |text| >= 5 && All(text, IsIdCharIgnoreCase)
  }

  /** `/^[a-z\s]{4,}$/i.test(text)`. */
  predicate IsWordsOnly(text: string) {
    |text| >= 4 && All(text, IsLetterOrSpace)
  }

  // ---------------------------------------------------------------------
  // /^[A-Z][a-z]+\s+[A-Z][a-z]+/

  /**
   * `/^[A-Z][a-z]+\s+[A-Z][a-z]+/.test(line)`.  The classes `[a-z]` and `\s`
   * are disjoint, so backtracking never helps and the runs are maximal.  The
   * pattern is anchored at the start only: anything may follow.
   */
  predicate IsCapitalisedPair(line: string) {
    |line| >= 2 && IsUpper(line[0]) &&
    var a := Span(line, 1, IsLower);
    var b := Span(line, a, IsSpace);
    a > 1 && b > a && b + 1 < |line| && IsUpper(line[b]) && IsLower(line[b + 1])
  }

  /** A capital, lower-case letters up to a space at `a`, then a capital and a lower-case letter. */
  lemma CapitalisedPairAt(line: string, a: nat)
    requires 1 < a && a + 2 < |line| && IsUpper(line[0])
    requires forall x | 1 <= x < a :: IsLower(line[x])
    requires line[a] == ' ' && IsUpper(line[a + 1]) && IsLower(line[a + 2])
    ensures IsCapitalisedPair(line)
  {
    SpanExact(line, 1, a - 1, IsLower);
    SpanExact(line, a, 1, IsSpace);
  }

  // ---------------------------------------------------------------------
  // /\d{1,2}[/-]\d{1,2}[/-]\d{2,4}/

  /**
   * `m` is matched in full by the date pattern with `a` digits in the first
   * group and `b` in the second: digits, separator, digits, separator, then
   * the 2 to 4 digits of the last group.
   */
  ghost predicate DateShapeAt(m: string, a: nat, b: nat) {
    1 <= a <= 2 && 1 <= b <= 2 && a + b + 4 <= |m| <= a + b + 6
    && (forall x | 0 <= x < a :: IsDigit(m[x])) && IsDateSep(m[a])
    && (forall x | a < x < a + 1 + b :: IsDigit(m[x])) && IsDateSep(m[a + 1 + b])
    && (forall x | a + 1 + b < x < |m| :: IsDigit(m[x]))
  }

  /** A string the date pattern `\d{1,2}[/-]\d{1,2}[/-]\d{2,4}` matches in full. */
  ghost predicate IsDateShape(m: string) {
    exists a: nat, b: nat {:trigger DateShapeAt(m, a, b)} :: DateShapeAt(m, a, b)
  }

  /** Date-shaped text splits at its two separators into its three digit groups. */
  lemma DateShapeSplit(m: string, a: nat, b: nat)
    requires DateShapeAt(m, a, b)
    ensures Split(m, IsDateSep) == [m[..a], m[a + 1..a + 1 + b], m[a + 2 + b..]]
  {
    var rest := m[a + 1..];
    SplitAt(m, a, IsDateSep);
    assert forall x | 0 <= x < b :: rest[x] == m[a + 1 + x];
    SplitAt(rest, b, IsDateSep);
    assert rest[..b] == m[a + 1..a + 1 + b];
    var third := rest[b + 1..];
    assert third == m[a + 2 + b..];
    assert forall x | 0 <= x < |third| :: third[x] == m[a + 2 + b + x];
    SplitNoSeparator(third, IsDateSep);
  }

  /**
   * End of the date pattern's match starting at `i`, if it matches there.
   * `\d{1,2}` can only match the whole digit run (a third digit, or a
   * separator missing after two, fails either choice), and the final
   * `\d{2,4}` greedily takes up to four digits.
   */
  function DateMatchAt(s: string, i: nat): (r: Option<nat>)
    requires i <= |s|
    ensures r.Some? ==> i < r.value <= |s| && IsDateShape(s[i..r.value])
    ensures r.Some? ==> forall e | r.value < e <= |s| :: !IsDateShape(s[i..e])
  {
    var j := Span(s, i, IsDigit);
    if !(1 <= j - i <= 2) || j == |s| || !IsDateSep(s[j]) then None
    else
      var k := Span(s, j + 1, IsDigit);
      if !(1 <= k - (j + 1) <= 2) || k == |s| || !IsDateSep(s[k]) then None
      else
        var e0 := Span(s, k + 1, IsDigit);
        if e0 - (k + 1) < 2 then None
        else
          var e := if e0 - (k + 1) > 4 then k + 5 else e0;
          DateMatchFromRuns(s, i, j, k, e);
          Some(e)
  }

  /**
   * The three digit runs found from `i` give date-shaped text ending at `e`,
   * and no longer date-shaped text starts at `i`.
   */
  lemma DateMatchFromRuns(s: string, i: nat, j: nat, k: nat, e: nat)
    requires i <= |s| && Span(s, i, IsDigit) == j && 1 <= j - i <= 2 && j < |s| && IsDateSep(s[j])
    requires Span(s, j + 1, IsDigit) == k && 1 <= k - (j + 1) <= 2 && k < |s| && IsDateSep(s[k])
    requires Span(s, k + 1, IsDigit) - (k + 1) >= 2
    requires e == if Span(s, k + 1, IsDigit) - (k + 1) > 4 then k + 5 else Span(s, k + 1, IsDigit)
    ensures i < e <= |s| && IsDateShape(s[i..e])
    ensures forall e' | e < e' <= |s| :: !IsDateShape(s[i..e'])
  {
    assert DateShapeAt(s[i..e], j - i, k - j - 1) by {
      assert forall x | 0 <= x < e - i :: s[i..e][x] == s[i + x];
    }
    forall e' | e < e' <= |s| ensures !IsDateShape(s[i..e']) {
      if IsDateShape(s[i..e']) { DateShapeWithin(s, i, e'); }
    }
  }

  /** The pattern matches at `i` whenever some date-shaped text starts at `i`. */
  lemma DateMatchAtComplete(s: string, i: nat, e: nat)
    requires i <= e <= |s| && IsDateShape(s[i..e])
    ensures DateMatchAt(s, i).Some?
  {
    var a: nat, b: nat :| DateShapeAt(s[i..e], a, b);
    var j := i + a;
    var k := j + 1 + b;
    DateShapeInPlace(s, i, e, a, b);
    SpanExact(s, i, a, IsDigit);
    SpanExact(s, j + 1, b, IsDigit);
    SpanAtLeast(s, k + 1, e - (k + 1), IsDigit);
    DateMatchAtFromSpans(s, i, j, k);
  }

  /**
   * Date-shaped text at `s[i..e]` is made of the digit runs found from `i`,
   * and its last group ends within the run of digits and at most four in.
   */
  lemma DateShapeWithin(s: string, i: nat, e: nat)
    requires i <= e <= |s| && IsDateShape(s[i..e])
    ensures var j := Span(s, i, IsDigit);
      1 <= j - i <= 2 && j < |s| && IsDateSep(s[j])
      && var k := Span(s, j + 1, IsDigit);
      1 <= k - (j + 1) <= 2 && k < |s| && IsDateSep(s[k])
      && k + 3 <= e <= Span(s, k + 1, IsDigit) && e <= k + 5
  {
    var a: nat, b: nat :| DateShapeAt(s[i..e], a, b);
    var j := i + a;
    var k := j + 1 + b;
    DateShapeInPlace(s, i, e, a, b);
    SpanExact(s, i, a, IsDigit);
    SpanExact(s, j + 1, b, IsDigit);
    SpanAtLeast(s, k + 1, e - (k + 1), IsDigit);
  }

  /** Date-shaped text at `s[i..e]`, read off `s` itself. */
  lemma DateShapeInPlace(s: string, i: nat, e: nat, a: nat, b: nat)
    requires i <= e <= |s| && DateShapeAt(s[i..e], a, b)
    ensures 1 <= a <= 2 && 1 <= b <= 2 && i + a + b + 4 <= e
    ensures forall x | i <= x < i + a :: IsDigit(s[x])
    ensures IsDateSep(s[i + a]) && !IsDigit(s[i + a])
    ensures forall x | i + a < x < i + a + 1 + b :: IsDigit(s[x])
    ensures IsDateSep(s[i + a + 1 + b]) && !IsDigit(s[i + a + 1 + b])
    ensures forall x | i + a + 1 + b < x < e :: IsDigit(s[x])
  {
    var m := s[i..e];
    assert forall x | i <= x < e :: s[x] == m[x - i];
  }

  /** The three digit runs the pattern needs, found from `i`: the pattern matches at `i`. */
  lemma DateMatchAtFromSpans(s: string, i: nat, j: nat, k: nat)
    requires i <= |s| && Span(s, i, IsDigit) == j && 1 <= j - i <= 2 && j < |s| && IsDateSep(s[j])
    requires Span(s, j + 1, IsDigit) == k && 1 <= k - (j + 1) <= 2 && k < |s| && IsDateSep(s[k])
    requires Span(s, k + 1, IsDigit) - (k + 1) >= 2
    ensures DateMatchAt(s, i).Some?
  {
  }

  /** Leftmost position at or after `from` where the date pattern matches. */
  function DateStart(s: string, from: nat): (r: Option<nat>)
    requires from <= |s|
    ensures r.Some? ==> from <= r.value <= |s| && DateMatchAt(s, r.value).Some?
    ensures r.Some? ==> forall j | from <= j < r.value :: DateMatchAt(s, j).None?
    ensures r.None? ==> forall j | from <= j <= |s| :: DateMatchAt(s, j).None?
    decreases |s| - from
  {
    if DateMatchAt(s, from).Some? then Some(from)
    else if from == |s| then None
    else
      var r := DateStart(s, from + 1);
      assert forall j | from <= j <= from :: DateMatchAt(s, j).None?;
      r
  }

  /**
   * `s.match(/\d{1,2}[/-]\d{1,2}[/-]\d{2,4}/)[0]`: the longest date-shaped
   * text of `s` starting where the first date-shaped text of `s` starts;
   * `None` exactly when `s` holds no date-shaped text anywhere.
   */
  function DateSearch(s: string): (r: Option<string>)
    ensures r.Some? ==> IsDateShape(r.value) && Includes(s, r.value)
    ensures r.Some? ==>
      exists i | 0 <= i <= |s| - |r.value| ::
        IncludesAt(s, r.value, i)
        && (forall j, e | 0 <= j < i && j <= e <= |s| :: !IsDateShape(s[j..e]))
        && (forall e | i + |r.value| < e <= |s| :: !IsDateShape(s[i..e]))
    ensures r.None? <==> forall j, e | 0 <= j <= e <= |s| :: !IsDateShape(s[j..e])
  {
    match DateStart(s, 0)
    case None =>
      forall j, e | 0 <= j <= e <= |s| ensures !IsDateShape(s[j..e]) {
        if IsDateShape(s[j..e]) { DateMatchAtComplete(s, j, e); }
      }
      None
    case Some(i) =>
      var e := DateMatchAt(s, i).value;
      forall j, e' | 0 <= j < i && j <= e' <= |s| ensures !IsDateShape(s[j..e']) {
        if IsDateShape(s[j..e']) { DateMatchAtComplete(s, j, e'); }
      }
      assert IncludesAt(s, s[i..e], i);
      Some(s[i..e])
  }

  /** No date starts at a position that is not a digit. */
  lemma NoDigitNoMatch(s: string, i: nat)
    requires i < |s| && !IsDigit(s[i])
    ensures DateMatchAt(s, i) == None
  {
    assert Span(s, i, IsDigit) == i;
  }

  /** The first date from `from` on starts at `n` when one starts there and nothing before it is a digit. */
  lemma {:induction false} DateStartAt(s: string, from: nat, n: nat)
    requires from <= n <= |s| && DateMatchAt(s, n).Some?
    requires forall k | from <= k < n :: !IsDigit(s[k])
    ensures DateStart(s, from) == Some(n)
    decreases n - from
  {
    if from < n {
      NoDigitNoMatch(s, from);
      DateStartAt(s, from + 1, n);
    }
  }

  /** A date-shaped tail after text without digits is the date the search finds. */
  lemma DateSearchToEnd(s: string, n: nat)
    requires n <= |s| && IsDateShape(s[n..])
    requires forall k | 0 <= k < n :: !IsDigit(s[k])
    ensures DateSearch(s) == Some(s[n..])
  {
    assert s[n..] == s[n..|s|];
    DateMatchAtComplete(s, n, |s|);
    DateStartAt(s, 0, n);
    assert DateMatchAt(s, n).value == |s|;
  }

  /** Text with neither `/` nor `-` holds no date. */
  lemma NoSeparatorNoDate(s: string)
    requires '/' !in s && '-' !in s
    ensures DateSearch(s) == None
  {
    forall j, e | 0 <= j <= e <= |s| ensures !IsDateShape(s[j..e]) {
      forall k | 0 <= k < e - j ensures !IsDateSep(s[j..e][k]) {
        assert s[j..e][k] == s[j + k];
      }
    }
  }

  // ---------------------------------------------------------------------
  // /name[:\s]+(.+)/i

  /**
   * Where `(.+)` starts once `[:\s]+` has matched from `q` up to at most `j`:
   * the greedy quantifier gives back characters until `.` can match one.
   */
  function DotStart(line: string, q: nat, j: nat): (r: Option<nat>)
    requires q <= j <= |line|
    ensures r.Some? ==> q < r.value <= j && r.value < |line| && IsDotChar(line[r.value])
    ensures r.Some? ==> forall k | r.value < k <= j && k < |line| :: !IsDotChar(line[k])
    ensures r.None? ==> forall k | q < k <= j && k < |line| :: !IsDotChar(line[k])
    decreases j
  {
    if j <= q then None
    else if j < |line| && IsDotChar(line[j]) then Some(j)
    else DotStart(line, q, j - 1)
  }

  /**
   * The capture group when the pattern's `name` is matched just before `q`:
   * `[:\s]+` takes the separators from `q` on, giving back only what `(.+)`
   * needs, and the capture is the rest of the line up to a line terminator.
   */
  function CaptureAfterLabel(line: string, q: nat): (r: Option<string>)
    requires q <= |line|
    ensures r.Some? ==> r.value != [] && All(r.value, IsDotChar)
    ensures r.None? <==>
      forall k | q < k <= Span(line, q, IsColonOrSpace) && k < |line| :: !IsDotChar(line[k])
    ensures r.Some? ==>
      exists j | q < j <= Span(line, q, IsColonOrSpace) && j < |line| ::
        r.value == line[j..Span(line, j, IsDotChar)]
        && forall k | j < k <= Span(line, q, IsColonOrSpace) && k < |line| :: !IsDotChar(line[k])
  {
    var e := Span(line, q, IsColonOrSpace);
    match DotStart(line, q, e)
    case None => None
    case Some(j) => Some(line[j..Span(line, j, IsDotChar)])
  }

  /** The pattern `/name[:\s]+(.+)/i` matches starting at `p`. */
  predicate LabelMatchesAt(line: string, p: nat) {
    p + 4 <= |line| && LowerAscii(line[p..p + 4]) == "name" && CaptureAfterLabel(line, p + 4).Some?
  }

  /**
   * `line.match(/name[:\s]+(.+)/i)[1]` searched from `p` on: the capture at
   * the leftmost position where the pattern matches.
   */
  function NameCaptureFrom(line: string, p: nat): (r: Option<string>)
    requires p <= |line|
    ensures r.Some? ==> r.value != [] && All(r.value, IsDotChar)
    ensures r.None? <==> forall p' | p <= p' <= |line| :: !LabelMatchesAt(line, p')
    ensures r.Some? ==>
      exists p' | p <= p' <= |line| - 4 ::
        LabelMatchesAt(line, p') && r == CaptureAfterLabel(line, p' + 4)
        && forall p'' | p <= p'' < p' :: !LabelMatchesAt(line, p'')
    decreases |line| - p
  {
    if p + 4 > |line| then None
    else if LabelMatchesAt(line, p) then CaptureAfterLabel(line, p + 4)
    else NameCaptureFrom(line, p + 1)
  }

  /** `line.match(/name[:\s]+(.+)/i)[1]`, or `None` when there is no match. */
  function NameCapture(line: string): Option<string> {
    NameCaptureFrom(line, 0)
  }

  /** On a trimmed line the capture starts with a non-space, so trimming it leaves something. */
  lemma CaptureAfterLabelStartsSolid(line: string, q: nat)
    requires q <= |line| && line != [] && IsTrimmed(line)
    requires CaptureAfterLabel(line, q).Some?
    ensures var c := CaptureAfterLabel(line, q).value; !IsSpace(c[0])
  {
    var e := Span(line, q, IsColonOrSpace);
    if e < |line| {
      assert DotStart(line, q, e) == Some(e);
    } else {
      assert DotStart(line, q, e) == DotStart(line, q, e - 1);
    }
  }

  lemma {:induction false} NameCaptureFromStartsSolid(line: string, p: nat)
    requires p <= |line| && line != [] && IsTrimmed(line)
    requires NameCaptureFrom(line, p).Some?
    ensures !IsSpace(NameCaptureFrom(line, p).value[0])
    decreases |line| - p
  {
    if LabelMatchesAt(line, p) {
      CaptureAfterLabelStartsSolid(line, p + 4);
    } else {
      NameCaptureFromStartsSolid(line, p + 1);
    }
  }

  /** The name captured from a trimmed line is not blank: `.trim()` of it is never empty. */
  lemma NameCaptureNotBlank(line: string)
    requires line != [] && IsTrimmed(line)
    requires NameCapture(line).Some?
    ensures Trim(NameCapture(line).value) != []
  {
    NameCaptureFromStartsSolid(line, 0);
  }

  /** Separators from `q` up to `j`, then a line without terminators: the capture is the rest of it. */
  lemma CaptureRest(line: string, q: nat, j: nat)
    requires q < j < |line| && Span(line, q, IsColonOrSpace) == j
    requires '\n' !in line && '\r' !in line && '\U{2028}' !in line && '\U{2029}' !in line
    ensures CaptureAfterLabel(line, q) == Some(line[j..])
  {
    forall x | j <= x < |line| ensures IsDotChar(line[x]) {
      assert line[x] in line;
    }
    assert DotStart(line, q, j) == Some(j);
    SpanAtLeast(line, j, |line| - j, IsDotChar);
    assert line[j..Span(line, j, IsDotChar)] == line[j..];
  }

  /** A line that starts with the label and a capture after it: that capture is the name's. */
  lemma NameCaptureAtStart(line: string, c: string)
    requires |line| >= 4 && LowerAscii(line[0..4]) == "name" && CaptureAfterLabel(line, 4) == Some(c)
    ensures NameCapture(line) == Some(c)
  {
    assert LabelMatchesAt(line, 0);
  }
}
