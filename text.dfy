/**
 * Character classes and string operations the solvers are built from:
 * ASCII case folding, substring search, splitting on a character,
 * trimming, the left-to-right scan for `\d+` runs and decimal rendering
 * of integers.
 */
module Text {

  /** `\d` of java.util.regex (no UNICODE_CHARACTER_CLASS flag): ASCII 0-9. */
  predicate IsDigit(c: char) {
    '0' <= c <= '9'
  }

  predicate IsUpper(c: char) {
    'A' <= c <= 'Z'
  }

  predicate IsLetter(c: char) {
    'A' <= c <= 'Z' || 'a' <= c <= 'z'
  }

  /** `\s` of java.util.regex: space, tab, line feed, vertical tab, form feed, carriage return. */
  predicate IsRegexSpace(c: char) {
    c == ' ' || c == '\t' || c == '\n' || c == '\U{B}' || c == '\U{C}' || c == '\r'
  }

  /** The characters `.` refuses to match when DOTALL is off (java.util.regex line terminators). */
  predicate IsLineTerminator(c: char) {
    c == '\n' || c == '\r' || c == '\U{85}' || c == '\U{2028}' || c == '\U{2029}'
  }

  /**
   * Kotlin's Char.isWhitespace on the JVM, which String.trim() uses:
   * Character.isWhitespace or Character.isSpaceChar, i.e. the Unicode space,
   * line and paragraph separators plus the ASCII controls 9-13 and 28-31.
   */
  predicate IsWhitespace(c: char) {
    || ('\t' <= c <= '\r')
    || ('\U{1C}' <= c <= '\U{1F}')
    || c == ' ' || c == '\U{A0}' || c == '\U{1680}'
    || ('\U{2000}' <= c <= '\U{200A}')
    || c == '\U{2028}' || c == '\U{2029}' || c == '\U{202F}' || c == '\U{205F}' || c == '\U{3000}'
  }

  function LowerChar(c: char): (r: char)
    ensures IsUpper(c) ==> r as int == c as int + 32
    ensures !IsUpper(c) ==> r == c
  {
    if IsUpper(c) then (c as int + 32) as char else c
  }

  /** ASCII lower-casing, the case folding of Regex IGNORE_CASE without UNICODE_CASE. */
  function Lower(s: string): (r: string)
    ensures |r| == |s|
    ensures forall i :: 0 <= i < |s| ==> r[i] == LowerChar(s[i])
  {
    seq(|s|, i requires 0 <= i < |s| => LowerChar(s[i]))
  }

  /** Text without upper-case ASCII letters is its own lower-case form. */
  lemma LowerOfLowerCase(s: string)
    requires forall i :: 0 <= i < |s| ==> !IsUpper(s[i])
    ensures Lower(s) == s
  {
  }

  // ---------------------------------------------------------------- substrings

  /** `p` occurs in `s` starting at index `i`. */
  predicate OccursAt(s: string, p: string, i: int) {
    0 <= i && i + |p| <= |s| && s[i..i + |p|] == p
  }

  /** Left-to-right search for `p` in `s` from index `from` on. */
  function ContainsFrom(s: string, p: string, from: nat): (r: bool)
    ensures r <==> exists i :: from <= i && OccursAt(s, p, i)
    decreases |s| - from
  {
    if from + |p| > |s| then false
    else if s[from..from + |p|] == p then assert OccursAt(s, p, from); true
    else ContainsFrom(s, p, from + 1)
  }

  /** Kotlin's `s.contains(p)`. */
  function Contains(s: string, p: string): (r: bool)
    ensures r <==> exists i :: OccursAt(s, p, i)
  {
    ContainsFrom(s, p, 0)
  }

  /** Kotlin's `s.contains(p, ignoreCase = true)` with ASCII case folding. */
  function ContainsIgnoreCase(s: string, p: string): (r: bool)
    ensures r <==> exists i :: OccursAt(Lower(s), Lower(p), i)
  {
    Contains(Lower(s), Lower(p))
  }

  /**
   * `s.contains(k1, ignoreCase = true) || s.contains(k2, ignoreCase = true) || ...`,
   * which is also `s.contains(Regex("(k1|k2|...)", IGNORE_CASE))`.
   */
  predicate MentionsAny(s: string, keywords: seq<string>) {
    exists k :: 0 <= k < |keywords| && ContainsIgnoreCase(s, keywords[k])
  }

  /** A keyword holding a letter cannot occur, in any case, in a text without letters. */
  lemma NoLetterNoKeyword(s: string, p: string, k: nat)
    requires forall i :: 0 <= i < |s| ==> !IsLetter(s[i])
    requires k < |p| && IsLetter(p[k])
    ensures !ContainsIgnoreCase(s, p)
  {
  }

  /** The occurrence found at index `i` makes `ContainsIgnoreCase` hold. */
  lemma OccurrenceContained(s: string, p: string, i: nat)
    requires OccursAt(Lower(s), Lower(p), i)
    ensures ContainsIgnoreCase(s, p)
  {
  }

  /** A text that ends with a word contains it, in any case. */
  lemma EndsWithWord(a: string, w: string)
    ensures ContainsIgnoreCase(a + w, w)
  {
    var l := Lower(a + w);
    assert l[|a|..|a| + |w|] == Lower(w) by {
      forall k | 0 <= k < |w| ensures l[|a|..|a| + |w|][k] == Lower(w)[k] {
        assert (a + w)[|a| + k] == w[k];
      }
    }
    OccurrenceContained(a + w, w, |a|);
  }

  /** Kotlin's `s.startsWith(p)`. */
  predicate StartsWith(s: string, p: string) {
    |p| <= |s| && s[..|p|] == p
  }

  /** Character `k` of the slice of length `n` at `i` is character `i + k` of the text. */
  lemma SliceChar(t: string, i: int, n: int, k: int)
    ensures 0 <= i && 0 <= k < n && i + n <= |t| ==> t[i..i + n][k] == t[i + k]
  {
  }

  /** A keyword holding a character that the lower-cased text lacks does not occur in it. */
  lemma MissingCharNoMatch(s: string, p: string, k: nat)
    requires k < |p| && LowerChar(p[k]) !in Lower(s)
    ensures !ContainsIgnoreCase(s, p)
  {
    forall i | OccursAt(Lower(s), Lower(p), i) ensures false {
      SliceChar(Lower(s), i, |p|, k);
    }
  }

  // ---------------------------------------------------------------- split

  function CountChar(s: string, c: char): (n: nat)
    ensures n <= |s|
  {
    if s == [] then 0 else (if s[0] == c then 1 else 0) + CountChar(s[1..], c)
  }

  /**
   * Kotlin's `s.split(d)` for a one-character delimiter and no limit: the
   * pieces between occurrences of `d`, empty pieces (leading, trailing,
   * adjacent delimiters) kept.
   */
  function Split(s: string, d: char): (r: seq<string>)
    ensures |r| >= 1
    ensures forall k :: 0 <= k < |r| ==> d !in r[k]
  {
    if s == [] then [""]
    else
      var rest := Split(s[1..], d);
      if s[0] == d then [""] + rest
      else [[s[0]] + rest[0]] + rest[1..]
  }

  /** Splitting yields one more piece than there are delimiters. */
  lemma {:induction false} SplitCount(s: string, d: char)
    ensures |Split(s, d)| == CountChar(s, d) + 1
  {
    if s != [] {
      SplitCount(s[1..], d);
    }
  }

  /** A text without the delimiter is a single piece. */
  lemma {:induction false} SplitNoDelimiter(s: string, d: char)
    requires d !in s
    ensures Split(s, d) == [s]
  {
    if s != [] {
      assert d !in s[1..];
      SplitNoDelimiter(s[1..], d);
      assert [s[0]] + s[1..] == s;
    }
  }

  /** The text up to the first delimiter is the first piece; the rest splits on its own. */
  lemma {:induction false} SplitAtFirst(a: string, d: char, b: string)
    requires d !in a
    ensures Split(a + [d] + b, d) == [a] + Split(b, d)
  {
    if a == [] {
      assert a + [d] + b == [d] + b;
      assert ([d] + b)[1..] == b;
    } else {
      var s := a + [d] + b;
      assert s[1..] == a[1..] + [d] + b;
      assert d !in a[1..];
      SplitAtFirst(a[1..], d, b);
      assert [a[0]] + a[1..] == a;
    }
  }

  // ---------------------------------------------------------------- trim

  function LeadingWhitespace(s: string): (n: nat)
    ensures n <= |s|
    ensures forall k :: 0 <= k < n ==> IsWhitespace(s[k])
    ensures n < |s| ==> !IsWhitespace(s[n])
  {
    if s == [] || !IsWhitespace(s[0]) then 0 else 1 + LeadingWhitespace(s[1..])
  }

  function TrailingWhitespaceStart(s: string): (m: nat)
    ensures m <= |s|
    ensures forall k :: m <= k < |s| ==> IsWhitespace(s[k])
    ensures 0 < m ==> !IsWhitespace(s[m - 1])
  {
    if s == [] || !IsWhitespace(s[|s| - 1]) then |s| else TrailingWhitespaceStart(s[..|s| - 1])
  }

  /** Kotlin's String.trim(): drop leading and trailing Char.isWhitespace characters. */
  function Trim(s: string): (r: string)
    ensures r == [] || (!IsWhitespace(r[0]) && !IsWhitespace(r[|r| - 1]))
    ensures r == [] <==> forall k :: 0 <= k < |s| ==> IsWhitespace(s[k])
    ensures r != [] ==> exists a :: OccursAt(s, r, a)
    ensures exists a, b :: && 0 <= a <= b <= |s| && r == s[a..b]
                           && (forall k :: 0 <= k < a ==> IsWhitespace(s[k]))
                           && (forall k :: b <= k < |s| ==> IsWhitespace(s[k]))
  {
    var a, b := LeadingWhitespace(s), TrailingWhitespaceStart(s);
    if a >= b then
      assert s[a..a] == [];
      []
    else
      assert OccursAt(s, s[a..b], a);
      s[a..b]
  }

  // ---------------------------------------------------------------- digit runs

  /** Where the run of digits starting at `i` ends. */
  function DigitRunEnd(s: string, i: nat): (j: nat)
    requires i <= |s|
    ensures i <= j <= |s|
    ensures forall k :: i <= k < j ==> IsDigit(s[k])
    ensures j == |s| || !IsDigit(s[j])
    decreases |s| - i
  {
    if i == |s| || !IsDigit(s[i]) then i else DigitRunEnd(s, i + 1)
  }

  /** A half-open index range [start, end) of a text. */
  datatype Span = Span(start: nat, end: nat)

  /** `sp` is a maximal run of ASCII digits in `s`: one match of `\d+`. */
  predicate IsDigitRun(s: string, sp: Span) {
    && sp.start < sp.end <= |s|
    && (forall k :: sp.start <= k < sp.end ==> IsDigit(s[k]))
    && (sp.start == 0 || !IsDigit(s[sp.start - 1]))
    && (sp.end == |s| || !IsDigit(s[sp.end]))
  }

  /**
   * The successive matches of `\d+` (Regex.findAll) from index `i` on:
   * scan to the next digit, take the whole run, continue after it.
   */
  function DigitSpansFrom(s: string, i: nat): (r: seq<Span>)
    requires i <= |s|
    decreases |s| - i
  {
    if i == |s| then []
    else if IsDigit(s[i]) then
      var j := DigitRunEnd(s, i);
      [Span(i, j)] + (if j == |s| then [] else DigitSpansFrom(s, j + 1))
    else
      DigitSpansFrom(s, i + 1)
  }

  /** Every match found from `i` on is a maximal digit run starting at or after `i`. */
  lemma {:induction false} DigitSpansFromAreRuns(s: string, i: nat)
    requires i <= |s|
    requires i == 0 || i == |s| || !IsDigit(s[i - 1])
    ensures forall m :: 0 <= m < |DigitSpansFrom(s, i)| ==>
              i <= DigitSpansFrom(s, i)[m].start && IsDigitRun(s, DigitSpansFrom(s, i)[m])
    decreases |s| - i
  {
    if i < |s| {
      if IsDigit(s[i]) {
        var j := DigitRunEnd(s, i);
        if j < |s| {
          DigitSpansFromAreRuns(s, j + 1);
        }
      } else {
        DigitSpansFromAreRuns(s, i + 1);
      }
    }
  }

  /** Matches come in left-to-right order, each separated from the next by a non-digit. */
  lemma {:induction false} DigitSpansFromOrdered(s: string, i: nat)
    requires i <= |s|
    requires i == 0 || i == |s| || !IsDigit(s[i - 1])
    ensures forall m :: 0 < m < |DigitSpansFrom(s, i)| ==>
              DigitSpansFrom(s, i)[m - 1].end < DigitSpansFrom(s, i)[m].start
    decreases |s| - i
  {
    if i < |s| {
      if IsDigit(s[i]) {
        var j := DigitRunEnd(s, i);
        if j < |s| {
          DigitSpansFromOrdered(s, j + 1);
          DigitSpansFromAreRuns(s, j + 1);
        }
      } else {
        DigitSpansFromOrdered(s, i + 1);
      }
    }
  }

  /** Every digit at or after `i` lies inside one of the matches. */
  lemma {:induction false} DigitSpansFromComplete(s: string, i: nat, k: nat)
    requires i <= k < |s| && IsDigit(s[k])
    ensures exists m :: 0 <= m < |DigitSpansFrom(s, i)| &&
              DigitSpansFrom(s, i)[m].start <= k < DigitSpansFrom(s, i)[m].end
    decreases |s| - i
  {
    var r := DigitSpansFrom(s, i);
    if IsDigit(s[i]) {
      var j := DigitRunEnd(s, i);
      if k < j {
        assert r[0].start <= k < r[0].end;
      } else {
        DigitSpansFromComplete(s, j + 1, k);
        var rest := DigitSpansFrom(s, j + 1);
        var m :| 0 <= m < |rest| && rest[m].start <= k < rest[m].end;
        assert r[m + 1] == rest[m];
      }
    } else {
      DigitSpansFromComplete(s, i + 1, k);
    }
  }

  /**
   * Regex("\\d+").findAll(s): maximal runs of ASCII digits, in
   * left-to-right order (that they cover every digit is DigitSpansCover).
   */
  function DigitSpans(s: string): (r: seq<Span>)
    ensures forall m :: 0 <= m < |r| ==> IsDigitRun(s, r[m])
    ensures forall m :: 0 < m < |r| ==> r[m - 1].end < r[m].start
  {
    DigitSpansFromAreRuns(s, 0);
    DigitSpansFromOrdered(s, 0);
    DigitSpansFrom(s, 0)
  }

  /** Every digit of the text lies inside one of the matches. */
  lemma DigitSpansCover(s: string, k: nat)
    requires k < |s| && IsDigit(s[k])
    ensures exists m :: 0 <= m < |DigitSpans(s)| && DigitSpans(s)[m].start <= k < DigitSpans(s)[m].end
  {
    DigitSpansFromComplete(s, 0, k);
    assert DigitSpans(s) == DigitSpansFrom(s, 0);
  }

  /** The text of each `\d+` match, left to right. */
  function DigitRuns(s: string): (r: seq<string>)
    ensures |r| == |DigitSpans(s)|
    ensures forall m :: 0 <= m < |r| ==> r[m] == s[DigitSpans(s)[m].start..DigitSpans(s)[m].end]
  {
    var spans := DigitSpans(s);
    seq(|spans|, m requires 0 <= m < |spans| => s[spans[m].start..spans[m].end])
  }

  function DigitValue(c: char): (d: nat)
    requires IsDigit(c)
    ensures d < 10
  {
    c as int - '0' as int
  }

  /** The base-10 value of a string of digits, read left to right. */
  function DigitsValue(ds: string): nat
    requires forall k :: 0 <= k < |ds| ==> IsDigit(ds[k])
  {
    if ds == [] then 0 else DigitsValue(ds[..|ds| - 1]) * 10 + DigitValue(ds[|ds| - 1])
  }

  /** The numeric values of the `\d+` matches, left to right. */
  function DigitRunValues(s: string): (r: seq<nat>)
    ensures |r| == |DigitSpans(s)| == |DigitRuns(s)|
    ensures forall m :: 0 <= m < |r| ==> r[m] == DigitsValue(DigitRuns(s)[m])
  {
    var spans := DigitSpans(s);
    seq(|spans|, m requires 0 <= m < |spans| => DigitsValue(s[spans[m].start..spans[m].end]))
  }

  /** Each operand is the value of the text of the matching run. */
  lemma DigitRunValuesRead(s: string, m: nat)
    requires m < |DigitRunValues(s)|
    ensures DigitRunValues(s)[m] == DigitsValue(DigitRuns(s)[m])
  {
  }

  /** A text without digits yields no operands. */
  lemma {:induction false} NoDigitNoRun(s: string, i: nat)
    requires i <= |s|
    requires forall k :: i <= k < |s| ==> !IsDigit(s[k])
    ensures DigitSpansFrom(s, i) == []
    decreases |s| - i
  {
    if i < |s| {
      NoDigitNoRun(s, i + 1);
    }
  }

  /** The scan passes over non-digits without producing a match. */
  lemma {:induction false} SkipNonDigits(s: string, i: nat, j: nat)
    requires i <= j <= |s|
    requires forall k :: i <= k < j ==> !IsDigit(s[k])
    ensures DigitSpansFrom(s, i) == DigitSpansFrom(s, j)
    decreases j - i
  {
    if i < j {
      SkipNonDigits(s, i + 1, j);
    }
  }

  /** Every span moved `d` places to the right. */
  function ShiftSpans(spans: seq<Span>, d: nat): (r: seq<Span>)
    ensures |r| == |spans|
    ensures forall m :: 0 <= m < |spans| ==> r[m] == Span(spans[m].start + d, spans[m].end + d)
  {
    seq(|spans|, m requires 0 <= m < |spans| => Span(spans[m].start + d, spans[m].end + d))
  }

  /** A digit run of `b` ends at the same place when `b` follows some prefix. */
  lemma {:induction false} DigitRunEndShift(a: string, b: string, i: nat)
    requires i <= |b|
    ensures DigitRunEnd(a + b, |a| + i) == |a| + DigitRunEnd(b, i)
    decreases |b| - i
  {
    if i < |b| {
      assert (a + b)[|a| + i] == b[i];
      if IsDigit(b[i]) {
        DigitRunEndShift(a, b, i + 1);
      }
    }
  }

  /** Scanning `b` behind a prefix finds the matches of `b`, shifted by the prefix length. */
  lemma {:induction false} DigitSpansShift(a: string, b: string, i: nat)
    requires i <= |b|
    ensures DigitSpansFrom(a + b, |a| + i) == ShiftSpans(DigitSpansFrom(b, i), |a|)
    decreases |b| - i
  {
    if i < |b| {
      assert (a + b)[|a| + i] == b[i];
      if IsDigit(b[i]) {
        DigitRunEndShift(a, b, i);
        var j := DigitRunEnd(b, i);
        if j < |b| {
          DigitSpansShift(a, b, j + 1);
        }
        ShiftStep(a + b, b, |a|, i, j);
      } else {
        DigitSpansShift(a, b, i + 1);
      }
    }
  }

  /** One step of the shifted scan: a run found at `i` in `b` is found at `d + i` in `s`. */
  lemma ShiftStep(s: string, b: string, d: nat, i: nat, j: nat)
    requires |s| == d + |b| && i < j <= |b|
    requires IsDigit(s[d + i]) && IsDigit(b[i])
    requires DigitRunEnd(s, d + i) == d + j && DigitRunEnd(b, i) == j
    requires j < |b| ==> DigitSpansFrom(s, d + j + 1) == ShiftSpans(DigitSpansFrom(b, j + 1), d)
    ensures DigitSpansFrom(s, d + i) == ShiftSpans(DigitSpansFrom(b, i), d)
  {
    if j < |b| {
      ShiftStepMore(s, b, d, i, j);
    } else {
      RunToEnd(s, d + i);
      RunToEnd(b, i);
      var shifted := ShiftSpans([Span(i, j)], d);
      assert shifted == [Span(d + i, d + j)] by {
        assert |shifted| == 1 && shifted[0] == Span(d + i, d + j);
      }
    }
  }

  /** A run that reaches the end of the text is the last match. */
  lemma RunToEnd(s: string, i: nat)
    requires i < |s| && IsDigit(s[i]) && DigitRunEnd(s, i) == |s|
    ensures DigitSpansFrom(s, i) == [Span(i, |s|)]
  {
  }

  lemma ShiftStepMore(s: string, b: string, d: nat, i: nat, j: nat)
    requires |s| == d + |b| && i < j < |b|
    requires IsDigit(s[d + i]) && IsDigit(b[i])
    requires DigitRunEnd(s, d + i) == d + j && DigitRunEnd(b, i) == j
    requires DigitSpansFrom(s, d + j + 1) == ShiftSpans(DigitSpansFrom(b, j + 1), d)
    ensures DigitSpansFrom(s, d + i) == ShiftSpans(DigitSpansFrom(b, i), d)
  {
    var head, rest := [Span(i, j)], DigitSpansFrom(b, j + 1);
    var shiftedHead := ShiftSpans(head, d);
    assert shiftedHead == [Span(d + i, d + j)] by {
      assert |shiftedHead| == 1 && shiftedHead[0] == Span(d + i, d + j);
    }
    RunThenMore(s, d + i, d + j);
    RunThenMore(b, i, j);
    ShiftConcat(head, rest, d);
  }

  /** A run that stops short of the end is followed by the matches after its terminator. */
  lemma RunThenMore(s: string, i: nat, j: nat)
    requires i < j < |s| && IsDigit(s[i]) && DigitRunEnd(s, i) == j
    ensures DigitSpansFrom(s, i) == [Span(i, j)] + DigitSpansFrom(s, j + 1)
  {
  }

  lemma ShiftConcat(x: seq<Span>, y: seq<Span>, d: nat)
    ensures ShiftSpans(x + y, d) == ShiftSpans(x, d) + ShiftSpans(y, d)
  {
    var l, r := ShiftSpans(x + y, d), ShiftSpans(x, d) + ShiftSpans(y, d);
    assert |l| == |r|;
    forall m | 0 <= m < |l| ensures l[m] == r[m] {
      if m < |x| {
        assert (x + y)[m] == x[m];
      } else {
        assert (x + y)[m] == y[m - |x|];
      }
    }
  }

  /** The value read at match `n` of `a + b` when that match is match `m` of `b` moved past `a`. */
  lemma ShiftedValueAt(a: string, b: string, n: nat, m: nat)
    requires n < |DigitSpans(a + b)| && m < |DigitSpans(b)|
    requires DigitSpans(a + b)[n] == Span(|a| + DigitSpans(b)[m].start, |a| + DigitSpans(b)[m].end)
    ensures DigitRunValues(a + b)[n] == DigitRunValues(b)[m]
  {
    var sp := DigitSpans(b)[m];
    assert (a + b)[|a| + sp.start..|a| + sp.end] == b[sp.start..sp.end];
  }

  /** Values read at spans shifted past a prefix are the values of `b`. */
  lemma ShiftedValuesEqual(a: string, b: string)
    requires DigitSpans(a + b) == ShiftSpans(DigitSpans(b), |a|)
    ensures DigitRunValues(a + b) == DigitRunValues(b)
  {
    var l, r := DigitRunValues(a + b), DigitRunValues(b);
    assert |l| == |r|;
    forall m | 0 <= m < |l| ensures l[m] == r[m] {
      ShiftedValueAt(a, b, m, m);
    }
  }

  /** No character of `s` is a digit. */
  predicate DigitFree(s: string) {
    forall k :: 0 <= k < |s| ==> !IsDigit(s[k])
  }

  /** Text before the first digit contributes no operands. */
  lemma NonDigitsThenValues(a: string, b: string)
    requires DigitFree(a)
    ensures DigitRunValues(a + b) == DigitRunValues(b)
  {
    forall k | 0 <= k < |a| ensures !IsDigit((a + b)[k]) {
      assert (a + b)[k] == a[k];
    }
    SkipNonDigits(a + b, 0, |a|);
    DigitSpansShift(a, b, 0);
    assert DigitSpans(a + b) == ShiftSpans(DigitSpans(b), |a|);
    ShiftedValuesEqual(a, b);
  }

  /** Inside a leading numeral the digit run reaches the numeral's end. */
  lemma {:induction false} NumeralRunEnd(a: string, b: string, i: nat)
    requires i <= |a|
    requires forall k :: 0 <= k < |a| ==> IsDigit(a[k])
    requires b == [] || !IsDigit(b[0])
    ensures DigitRunEnd(a + b, i) == |a|
    decreases |a| - i
  {
    if i < |a| {
      assert (a + b)[i] == a[i];
      NumeralRunEnd(a, b, i + 1);
    } else if b != [] {
      assert (a + b)[i] == b[0];
    }
  }

  /** Behind a leading numeral, the matches are the numeral and the shifted matches of the rest. */
  lemma NumeralThenSpans(a: string, b: string)
    requires |a| > 0 && forall k :: 0 <= k < |a| ==> IsDigit(a[k])
    requires b == [] || !IsDigit(b[0])
    ensures DigitSpans(a + b) == [Span(0, |a|)] + ShiftSpans(DigitSpans(b), |a|)
  {
    var s := a + b;
    NumeralRunEnd(a, b, 0);
    assert s[0] == a[0];
    if b == [] {
      assert DigitSpans(b) == [];
    } else {
      assert s[|a|] == b[0];
      DigitSpansShift(a, b, 1);
      SkipNonDigits(b, 0, 1);
    }
  }

  /** A leading numeral followed by a non-digit is the first operand. */
  lemma NumeralThenValues(a: string, b: string)
    requires |a| > 0 && forall k :: 0 <= k < |a| ==> IsDigit(a[k])
    requires b == [] || !IsDigit(b[0])
    ensures DigitRunValues(a + b) == [DigitsValue(a)] + DigitRunValues(b)
  {
    NumeralHeadValue(a, b);
    NumeralTailValues(a, b);
    HeadThenTail(DigitRunValues(a + b), DigitsValue(a), DigitRunValues(b));
  }

  lemma HeadThenTail<T>(l: seq<T>, x: T, t: seq<T>)
    requires |l| > 0 && l[0] == x && l[1..] == t
    ensures l == [x] + t
  {
    assert l == [l[0]] + l[1..];
  }

  /** The first operand of a text that starts with a numeral is that numeral's value. */
  lemma NumeralHeadValue(a: string, b: string)
    requires |a| > 0 && forall k :: 0 <= k < |a| ==> IsDigit(a[k])
    requires b == [] || !IsDigit(b[0])
    ensures |DigitRunValues(a + b)| > 0 && DigitRunValues(a + b)[0] == DigitsValue(a)
  {
    NumeralThenSpans(a, b);
    assert (a + b)[0..|a|] == a;
  }

  /** After the leading numeral, the operands are those of the rest of the text. */
  lemma NumeralTailValues(a: string, b: string)
    requires |a| > 0 && forall k :: 0 <= k < |a| ==> IsDigit(a[k])
    requires b == [] || !IsDigit(b[0])
    ensures |DigitRunValues(a + b)| > 0 && DigitRunValues(a + b)[1..] == DigitRunValues(b)
  {
    NumeralThenSpans(a, b);
    var l := DigitRunValues(a + b);
    forall m | 0 <= m < |DigitRunValues(b)| ensures l[1..][m] == DigitRunValues(b)[m] {
      ShiftedValueAt(a, b, m + 1, m);
    }
  }

  // ---------------------------------------------------------------- rendering

  function DigitChar(d: nat): (c: char)
    requires d < 10
    ensures IsDigit(c) && DigitValue(c) == d
  {
    ('0' as int + d) as char
  }

  /** Int.toString() for a non-negative value: the shortest base-10 numeral. */
  function DecimalString(n: nat): (r: string)
    ensures |r| >= 1
    ensures forall k :: 0 <= k < |r| ==> IsDigit(r[k])
    ensures r[0] == '0' ==> n == 0
  {
    if n < 10 then [DigitChar(n)] else DecimalString(n / 10) + [DigitChar(n % 10)]
  }

  /** Reading back a rendered numeral gives the number. */
  lemma {:induction false} DecimalStringValue(n: nat)
    ensures DigitsValue(DecimalString(n)) == n
  {
    if n >= 10 {
      var ds := DecimalString(n);
      assert ds[..|ds| - 1] == DecimalString(n / 10);
      DecimalStringValue(n / 10);
    }
  }

  /** Kotlin's joinToString(sep): the parts in order, `sep` between each two. */
  function JoinToString(parts: seq<string>, sep: string): (r: string)
    ensures parts == [] ==> r == []
    ensures |parts| == 1 ==> r == parts[0]
  {
    if parts == [] then []
    else if |parts| == 1 then parts[0]
    else parts[0] + sep + JoinToString(parts[1..], sep)
  }

  /** A join starts with the first part, ends with the last, and puts the separator right after the first. */
  lemma {:induction false} JoinToStringEnds(parts: seq<string>, sep: string)
    requires |parts| >= 1
    ensures var r := JoinToString(parts, sep);
            && |r| >= |parts[0]| && r[..|parts[0]|] == parts[0]
            && |r| >= |parts[|parts| - 1]| && r[|r| - |parts[|parts| - 1]|..] == parts[|parts| - 1]
            && (|parts| >= 2 ==> |r| >= |parts[0]| + |sep| && r[|parts[0]|..|parts[0]| + |sep|] == sep)
  {
    if |parts| >= 2 {
      var rest := JoinToString(parts[1..], sep);
      JoinToStringEnds(parts[1..], sep);
      var r := JoinToString(parts, sep);
      assert r == parts[0] + sep + rest;
      assert parts[1..][|parts[1..]| - 1] == parts[|parts| - 1];
      assert r[|r| - |rest|..] == rest;
    }
  }

  /** `numbers.map { it.toString() }` for non-negative numbers. */
  function DecimalStrings(nums: seq<nat>): (r: seq<string>)
    ensures |r| == |nums|
    ensures forall m :: 0 <= m < |nums| ==> r[m] == DecimalString(nums[m])
  {
    seq(|nums|, m requires 0 <= m < |nums| => DecimalString(nums[m]))
  }

  /**
   * Numbers rendered and joined with a digit-free separator read back, as
   * `\d+` matches, to the same numbers in the same order.
   */
  lemma {:induction false} JoinedNumeralsReadBack(nums: seq<nat>, sep: string)
    requires |sep| > 0 && forall k :: 0 <= k < |sep| ==> !IsDigit(sep[k])
    ensures DigitRunValues(JoinToString(DecimalStrings(nums), sep)) == nums
    decreases |nums|
  {
    if nums == [] {
      assert DigitSpans([]) == [];
    } else {
      var d := DecimalString(nums[0]);
      DecimalStringValue(nums[0]);
      if |nums| == 1 {
        NumeralThenValues(d, []);
        assert d + [] == d;
        assert DigitSpans([]) == [];
      } else {
        var rest := JoinToString(DecimalStrings(nums[1..]), sep);
        assert DecimalStrings(nums)[1..] == DecimalStrings(nums[1..]);
        assert JoinToString(DecimalStrings(nums), sep) == d + (sep + rest);
        NumeralThenValues(d, sep + rest);
        NonDigitsThenValues(sep, rest);
        JoinedNumeralsReadBack(nums[1..], sep);
      }
    }
  }

  /** A numeral followed by digit-free text reads back as that number. */
  lemma OneNumeral(x: nat, after: string)
    requires DigitFree(after)
    ensures DigitRunValues(DecimalString(x) + after) == [x]
  {
    DecimalStringValue(x);
    NumeralThenValues(DecimalString(x), after);
    NoDigitNoRun(after, 0);
  }

  /** Two numerals between digit-free text read back as those two numbers. */
  lemma TwoNumerals(before: string, x: nat, between: string, y: nat, after: string)
    requires DigitFree(before) && DigitFree(between) && DigitFree(after) && |between| > 0
    ensures DigitRunValues(before + DecimalString(x) + between + DecimalString(y) + after) == [x, y]
  {
    var dx, dy := DecimalString(x), DecimalString(y);
    DecimalStringValue(x);
    DecimalStringValue(y);
    assert before + dx + between + dy + after == before + (dx + (between + (dy + after)));
    NonDigitsThenValues(before, dx + (between + (dy + after)));
    NumeralThenValues(dx, between + (dy + after));
    NonDigitsThenValues(between, dy + after);
    NumeralThenValues(dy, after);
    NoDigitNoRun(after, 0);
  }
}
