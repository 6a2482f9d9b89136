/**
 * The JavaScript string operations the core is built from: `trim`, `split`,
 * `includes`, `toLowerCase`, `parseInt` and `padStart`.  A `char` stands for
 * one UTF-16 code unit, so `|s|` is JavaScript's `s.length`.
 */
module Text {
  import opened Types

  /** ECMAScript WhiteSpace and LineTerminator: what `\s` matches and `trim` removes. */
  predicate IsSpace(c: char) {
    var n := c as int;
    n == 0x09 || n == 0x0A || n == 0x0B || n == 0x0C || n == 0x0D || n == 0x20
    || n == 0xA0 || n == 0x1680 || (0x2000 <= n <= 0x200A) || n == 0x2028 || n == 0x2029
    || n == 0x202F || n == 0x205F || n == 0x3000 || n == 0xFEFF
  }

  /** The characters a regular expression's `.` does not match. */
  predicate IsLineTerminator(c: char) {
    c == '\n' || c == '\r' || c as int == 0x2028 || c as int == 0x2029
  }

  predicate IsDigit(c: char) { '0' <= c <= '9' }
  predicate IsUpper(c: char) { 'A' <= c <= 'Z' }
  predicate IsLower(c: char) { 'a' <= c <= 'z' }
  predicate IsLetter(c: char) { IsUpper(c) || IsLower(c) }
  predicate IsNewline(c: char) { c == '\n' }

  predicate All(s: string, p: char -> bool) {
    forall k | 0 <= k < |s| :: p(s[k])
  }

  /** End of the longest run of characters satisfying `p` that starts at `i`. */
  function Span(s: string, i: nat, p: char -> bool): (e: nat)
    requires i <= |s|
    ensures i <= e <= |s|
    ensures forall k | i <= k < e :: p(s[k])
    ensures e < |s| ==> !p(s[e])
    decreases |s| - i
  {
    if i < |s| && p(s[i]) then Span(s, i + 1, p) else i
  }

  /** A run of `n` characters satisfying `p` followed by one that does not: the span ends there. */
  lemma SpanExact(s: string, i: nat, n: nat, p: char -> bool)
    requires i + n < |s| && !p(s[i + n])
    requires forall x | i <= x < i + n :: p(s[x])
    ensures Span(s, i, p) == i + n
  {
  }

  /** A run of `n` characters satisfying `p` from `i`: the span reaches at least `i + n`. */
  lemma SpanAtLeast(s: string, i: nat, n: nat, p: char -> bool)
    requires i + n <= |s|
    requires forall x | i <= x < i + n :: p(s[x])
    ensures Span(s, i, p) >= i + n
  {
  }

  /** Start of the whitespace-free tail of `s` after its leading whitespace. */
  function TrimStartIndex(s: string): nat
    ensures TrimStartIndex(s) <= |s|
  {
    Span(s, 0, IsSpace)
  }

  /** End of `s` once its trailing whitespace is removed. */
  function TrimEndIndex(s: string): (e: nat)
    ensures e <= |s|
    ensures forall k | e <= k < |s| :: IsSpace(s[k])
    ensures e > 0 ==> !IsSpace(s[e - 1])
    decreases |s|
  {
    if s != [] && IsSpace(s[|s| - 1]) then TrimEndIndex(s[..|s| - 1]) else |s|
  }

  /** A string with no whitespace at either end. */
  predicate IsTrimmed(s: string) {
    s == [] || (!IsSpace(s[0]) && !IsSpace(s[|s| - 1]))
  }

  /** `s.trim()`. */
  function Trim(s: string): (r: string)
    ensures IsTrimmed(r)
    ensures r == [] <==> All(s, IsSpace)
    ensures r != [] ==> r == s[TrimStartIndex(s)..TrimEndIndex(s)]
    ensures All(s[..TrimStartIndex(s)], IsSpace) && All(s[TrimEndIndex(s)..], IsSpace)
  {
    var a, b := TrimStartIndex(s), TrimEndIndex(s);
    if a < b then s[a..b] else []
  }

  /** Trimming is idempotent: a trimmed string is left as it is. */
  lemma TrimTrimmed(s: string)
    requires IsTrimmed(s)
    ensures Trim(s) == s
  {
    if s != [] {
      assert TrimStartIndex(s) == 0;
      assert TrimEndIndex(s) == |s|;
    }
  }

  /** `s.split(sep)` for a separator that is one character out of a class (`'\n'`, `/[/-]/`). */
  function Split(s: string, sep: char -> bool): (parts: seq<string>)
    ensures |parts| >= 1
    ensures forall i | 0 <= i < |parts| :: forall k | 0 <= k < |parts[i]| :: !sep(parts[i][k])
  {
    if s == [] then [[]]
    else
      var rest := Split(s[1..], sep);
      if sep(s[0]) then [[]] + rest else [[s[0]] + rest[0]] + rest[1..]
  }

  /** `parts.join(c)`. */
  function Join(parts: seq<string>, c: char): string {
    if |parts| <= 1 then (if parts == [] then [] else parts[0])
    else parts[0] + [c] + Join(parts[1..], c)
  }

  /** Splitting at newlines loses nothing: joining the pieces gives the text back. */
  lemma {:induction false} SplitNewlinesJoin(s: string)
    ensures Join(Split(s, IsNewline), '\n') == s
  {
    if s != [] {
      var rest := Split(s[1..], IsNewline);
      SplitNewlinesJoin(s[1..]);
      if IsNewline(s[0]) {
        assert Split(s, IsNewline) == [[]] + rest;
        assert ([[]] + rest)[1..] == rest;
      } else {
        var parts := [[s[0]] + rest[0]] + rest[1..];
        assert Split(s, IsNewline) == parts;
        if |rest| > 1 {
          assert parts[1..] == rest[1..];
          assert Join(rest, '\n') == rest[0] + ['\n'] + Join(rest[1..], '\n');
        }
      }
    }
  }

  /** A piece free of separators splits into itself alone. */
  lemma {:induction false} SplitNoSeparator(a: string, sep: char -> bool)
    requires forall k | 0 <= k < |a| :: !sep(a[k])
    ensures Split(a, sep) == [a]
  {
    if a != [] {
      SplitNoSeparator(a[1..], sep);
      assert [a[0]] + a[1..] == a;
    }
  }

  /** Splitting at the first separator of `s`, found at `i`: the piece before it comes off first. */
  lemma {:induction false} SplitAt(s: string, i: nat, sep: char -> bool)
    requires i < |s| && sep(s[i])
    requires forall k | 0 <= k < i :: !sep(s[k])
    ensures Split(s, sep) == [s[..i]] + Split(s[i + 1..], sep)
  {
    if i > 0 {
      var tail := s[1..];
      SplitAt(tail, i - 1, sep);
      assert tail[i..] == s[i + 1..];
      assert [s[0]] + tail[..i - 1] == s[..i];
    }
  }

  predicate IncludesAt(s: string, t: string, i: int) {
    0 <= i && i + |t| <= |s| && s[i..i + |t|] == t
  }

  /** `s.includes(t)`. */
  predicate Includes(s: string, t: string) {
    exists i {:trigger IncludesAt(s, t, i)} | 0 <= i <= |s| - |t| :: IncludesAt(s, t, i)
  }

  /** A string that includes `u` includes everything `u` includes. */
  lemma IncludesTransitive(s: string, u: string, t: string)
    requires Includes(s, u) && Includes(u, t)
    ensures Includes(s, t)
  {
    var i :| 0 <= i <= |s| - |u| && IncludesAt(s, u, i);
    var j :| 0 <= j <= |u| - |t| && IncludesAt(u, t, j);
    assert s[i..i + |u|] == u;
    assert forall k | 0 <= k < |t| :: s[i + j + k] == u[j + k] == t[k];
    assert IncludesAt(s, t, i + j);
  }

  /** A string lacking some character of `t` does not include `t`. */
  lemma NotIncludesChar(s: string, t: string, j: nat)
    requires j < |t| && t[j] !in s
    ensures !Includes(s, t)
  {
    forall i | 0 <= i <= |s| - |t| ensures !IncludesAt(s, t, i) {
      assert s[i..i + |t|][j] == s[i + j];
    }
  }

  /** `toLowerCase` on the ASCII letters; every other character is kept. */
  function LowerChar(c: char): char {
    if IsUpper(c) then (c as int + 32) as char else c
  }

  function LowerAscii(s: string): string {
    seq(|s|, i requires 0 <= i < |s| => LowerChar(s[i]))
  }

  /** The number spelled by a run of decimal digits. */
  function DigitsValue(ds: string): nat
    requires All(ds, IsDigit)
  {
    if ds == [] then 0 else DigitsValue(ds[..|ds| - 1]) * 10 + (ds[|ds| - 1] as int - '0' as int)
  }

  /**
   * `parseInt(s, 10)`: leading whitespace, an optional sign, then the longest
   * run of decimal digits; `None` stands for `NaN` (no digits at all).
   */
  function ParseInt(s: string): (r: Option<int>)
    ensures All(s, IsDigit) && s != [] ==> r == Some(DigitsValue(s))
  {
    assert All(s, IsDigit) && s != [] ==> !IsSpace(s[0]) && s[0..] == s && s[..|s|] == s;
    var t := s[TrimStartIndex(s)..];
    var negative := t != [] && t[0] == '-';
    var u := if t != [] && (t[0] == '-' || t[0] == '+') then t[1..] else t;
    var k := Span(u, 0, IsDigit);
    if k == 0 then None
    else
      var magnitude: int := DigitsValue(u[..k]);
      Some(if negative then -magnitude else magnitude)
  }

  /** `s.padStart(2, '0')`. */
  function PadTwo(s: string): (r: string)
    ensures |r| == if |s| >= 2 then |s| else 2
    ensures r[|r| - |s|..] == s
    ensures forall k | 0 <= k < |r| - |s| :: r[k] == '0'
  {
    if |s| >= 2 then s else if |s| == 1 then "0" + s else "00"
  }
}
