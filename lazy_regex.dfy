/**
 * The four capturing regular expressions of the desktop word-problem
 * solver all have the shape
 *
 *     lead \s+ (.+?) (?: stop1 | stop2 | ... )
 *
 * where every stop is either a chain `\s+w1\s+w2...` of literal words or
 * the end-of-input anchor `$`. This module gives Regex.find's answer for
 * such a pattern the way java.util.regex computes it: the leftmost start
 * position; at that start the greedy `\s+` gives back spaces one at a time
 * (largest capture start first); for each capture start the lazy `.+?`
 * grows one character at a time (shortest capture first).
 */
module LazyRegex {
  import opened Wrappers
  import opened Text

  /** One alternative after the lazy group: `\s+w1\s+w2...`, or `$`. */
  datatype Stop = Words(words: seq<string>) | EndOfInput

  /** `lead\s+(.+?)(?:stops)`, with RegexOption.IGNORE_CASE when `ignoreCase`. */
  datatype LazyPattern = LazyPattern(lead: string, ignoreCase: bool, stops: seq<Stop>)

  /**
   * One match: the pattern starts at `start`, and the group is the text
   * between `groupStart` (inclusive) and `groupEnd` (exclusive).
   */
  datatype Capture = Capture(start: nat, groupStart: nat, groupEnd: nat)

  /** The literal `lit` at index `i`, ASCII case folded when `ignoreCase`. */
  predicate LiteralAt(s: string, i: nat, lit: string, ignoreCase: bool) {
    i + |lit| <= |s| &&
    if ignoreCase then Lower(s[i..i + |lit|]) == Lower(lit) else s[i..i + |lit|] == lit
  }

  /** The end of the run of `\s` characters starting at `i`. */
  function SpaceRunEnd(s: string, i: nat): (j: nat)
    requires i <= |s|
    ensures i <= j <= |s|
    ensures forall k :: i <= k < j ==> IsRegexSpace(s[k])
    ensures j == |s| || !IsRegexSpace(s[j])
    decreases |s| - i
  {
    if i == |s| || !IsRegexSpace(s[i]) then i else SpaceRunEnd(s, i + 1)
  }

  /**
   * `\s+w1\s+w2...` matches at `i`. Each greedy `\s+` is followed by a word
   * that begins with a letter, so the only run length that can succeed is
   * the longest one.
   */
  predicate WordsAt(s: string, i: nat, words: seq<string>, ignoreCase: bool)
    requires i <= |s|
    decreases |words|
  {
    if words == [] then true
    else
      var j := SpaceRunEnd(s, i);
      && j > i
      && LiteralAt(s, j, words[0], ignoreCase)
      && WordsAt(s, j + |words[0]|, words[1..], ignoreCase)
  }

  /** `\s+w1\s+w2...` matches at `i` for SOME choice of run lengths (full backtracking). */
  ghost predicate WordsMatchAt(s: string, i: nat, words: seq<string>, ignoreCase: bool)
    decreases |words|
  {
    || words == []
    || exists j: nat :: i < j <= |s| && (forall k :: i <= k < j ==> IsRegexSpace(s[k]))
                  && LiteralAt(s, j, words[0], ignoreCase)
                  && WordsMatchAt(s, j + |words[0]|, words[1..], ignoreCase)
  }

  /** Every word begins with a letter, as in all the patterns of the solver. */
  predicate LetterLed(words: seq<string>) {
    forall k :: 0 <= k < |words| ==> |words[k]| > 0 && IsLetter(words[k][0])
  }

  /** A word beginning with a letter can only follow the longest run of spaces. */
  lemma WordFollowsWholeRun(s: string, i: nat, j: nat, w: string, ignoreCase: bool)
    requires i < j <= |s| && forall k :: i <= k < j ==> IsRegexSpace(s[k])
    requires |w| > 0 && IsLetter(w[0]) && LiteralAt(s, j, w, ignoreCase)
    ensures j == SpaceRunEnd(s, i)
  {
    var r := SpaceRunEnd(s, i);
    assert s[j..j + |w|][0] == s[j];
    assert Lower(s[j..j + |w|])[0] == LowerChar(s[j]);
    assert Lower(w)[0] == LowerChar(w[0]);
  }

  /** The greedy reading of `\s+w1\s+w2...` is one of the readings. */
  lemma {:induction false} GreedyWordsMatch(s: string, i: nat, words: seq<string>, ignoreCase: bool)
    requires i <= |s| && WordsAt(s, i, words, ignoreCase)
    ensures WordsMatchAt(s, i, words, ignoreCase)
    decreases |words|
  {
    if words != [] {
      var r := SpaceRunEnd(s, i);
      GreedyWordsMatch(s, r + |words[0]|, words[1..], ignoreCase);
      assert r > i && LiteralAt(s, r, words[0], ignoreCase);
    }
  }

  /** Backtracking into a greedy `\s+` cannot help when a letter follows it. */
  lemma {:induction false} MatchedWordsAreGreedy(s: string, i: nat, words: seq<string>, ignoreCase: bool)
    requires i <= |s| && LetterLed(words) && WordsMatchAt(s, i, words, ignoreCase)
    ensures WordsAt(s, i, words, ignoreCase)
    decreases |words|
  {
    if words != [] {
      var w := words[0];
      assert LetterLed(words[1..]);
      var j: nat :| i < j <= |s| && (forall k :: i <= k < j ==> IsRegexSpace(s[k]))
                && LiteralAt(s, j, w, ignoreCase)
                && WordsMatchAt(s, j + |w|, words[1..], ignoreCase);
      WordFollowsWholeRun(s, i, j, w, ignoreCase);
      MatchedWordsAreGreedy(s, j + |w|, words[1..], ignoreCase);
    }
  }

  /**
   * Java's `$` without MULTILINE: the end of the input, or just before a
   * line terminator that ends the input (not between '\r' and '\n').
   */
  predicate DollarAt(s: string, i: nat) {
    || i == |s|
    || (i == |s| - 1 && s[i] == '\n' && !(i > 0 && s[i - 1] == '\r'))
    || (i == |s| - 1 && (s[i] == '\r' || s[i] == '\U{85}' || s[i] == '\U{2028}' || s[i] == '\U{2029}'))
    || (i == |s| - 2 && s[i] == '\r' && s[i + 1] == '\n')
  }

  predicate StopAt(s: string, i: nat, stop: Stop, ignoreCase: bool)
    requires i <= |s|
  {
    match stop
    case Words(words) => WordsAt(s, i, words, ignoreCase)
    case EndOfInput => DollarAt(s, i)
  }

  predicate AnyStopAt(s: string, i: nat, pat: LazyPattern)
    requires i <= |s|
  {
    exists k :: 0 <= k < |pat.stops| && StopAt(s, i, pat.stops[k], pat.ignoreCase)
  }

  /** `.` matches every character of s[p..e]. */
  predicate NoLineTerminator(s: string, p: nat, e: nat)
    requires p <= e <= |s|
  {
    forall k :: p <= k < e ==> !IsLineTerminator(s[k])
  }

  /** A non-empty group s[p..e] that the tail of the pattern accepts. */
  predicate GroupEnds(s: string, pat: LazyPattern, p: nat, e: nat) {
    p < e <= |s| && NoLineTerminator(s, p, e) && AnyStopAt(s, e, pat)
  }

  /** The pattern matches at `i` with its group spanning s[p..e]. */
  predicate IsMatch(s: string, pat: LazyPattern, i: nat, p: nat, e: nat) {
    && LiteralAt(s, i, pat.lead, pat.ignoreCase)
    && i + |pat.lead| < p
    && (forall k :: i + |pat.lead| <= k < p && k < |s| ==> IsRegexSpace(s[k]))
    && GroupEnds(s, pat, p, e)
  }

  /**
   * Java's preferred match among all those that start at `i`: capture
   * start as late as possible, then capture end as early as possible.
   */
  predicate Preferred(c: Capture, i: nat, p: nat, e: nat) {
    p <= c.groupStart && (p == c.groupStart ==> c.groupEnd <= e)
  }

  /** The lazy `.+?`: try group ends e, e+1, ... until a stop matches. */
  function ExtendGroup(s: string, pat: LazyPattern, p: nat, e: nat): (r: Option<nat>)
    requires p < e <= |s| + 1
    requires forall k :: p <= k < e - 1 ==> !IsLineTerminator(s[k])
    ensures r.Some? ==> e <= r.value && GroupEnds(s, pat, p, r.value)
    ensures forall e' :: e <= e' && GroupEnds(s, pat, p, e') ==> r.Some? && r.value <= e'
    decreases |s| + 1 - e
  {
    if e > |s| || IsLineTerminator(s[e - 1]) then None
    else if AnyStopAt(s, e, pat) then Some(e)
    else ExtendGroup(s, pat, p, e + 1)
  }

  /** The greedy `\s+` backing off: group starts p, p-1, ..., a+1. */
  function BackOffSpaces(s: string, pat: LazyPattern, i: nat, a: nat, p: nat): (r: Option<Capture>)
    requires a <= p <= |s|
    requires forall k :: a <= k < p ==> IsRegexSpace(s[k])
    ensures r.Some? ==> r.value.start == i && a < r.value.groupStart <= p
    ensures r.Some? ==> forall k :: a <= k < r.value.groupStart ==> IsRegexSpace(s[k])
    ensures r.Some? ==> GroupEnds(s, pat, r.value.groupStart, r.value.groupEnd)
    ensures forall p', e' :: a < p' <= p && GroupEnds(s, pat, p', e') ==>
              r.Some? && Preferred(r.value, i, p', e')
    decreases p
  {
    if p <= a then None
    else match ExtendGroup(s, pat, p, p + 1)
      case Some(e) => Some(Capture(i, p, e))
      case None => BackOffSpaces(s, pat, i, a, p - 1)
  }

  /** The pattern tried at start position `i` only. */
  function MatchAt(s: string, pat: LazyPattern, i: nat): (r: Option<Capture>)
    ensures r.Some? ==> r.value.start == i && IsMatch(s, pat, i, r.value.groupStart, r.value.groupEnd)
    ensures forall p, e :: IsMatch(s, pat, i, p, e) ==> r.Some? && Preferred(r.value, i, p, e)
  {
    if !LiteralAt(s, i, pat.lead, pat.ignoreCase) then None
    else
      var a := i + |pat.lead|;
      var w := SpaceRunEnd(s, a);
      BackOffSpaces(s, pat, i, a, w)
  }

  /** Regex.find from start position `i` on: the leftmost match wins. */
  function FindFrom(s: string, pat: LazyPattern, i: nat): (r: Option<Capture>)
    ensures r.Some? ==> i <= r.value.start && IsMatch(s, pat, r.value.start, r.value.groupStart, r.value.groupEnd)
    ensures forall j, p, e :: i <= j && IsMatch(s, pat, j, p, e) ==>
              r.Some? && r.value.start <= j && (r.value.start == j ==> Preferred(r.value, j, p, e))
    decreases |s| + 1 - i
  {
    if i > |s| then None
    else match MatchAt(s, pat, i)
      case Some(c) => Some(c)
      case None => FindFrom(s, pat, i + 1)
  }

  /**
   * `Regex(pattern).find(s)`: the match java.util.regex reports, if any.
   * It is a match; no match starts further left; among the matches at its
   * start, it has the latest group start and, for that, the earliest end.
   */
  function Find(s: string, pat: LazyPattern): (r: Option<Capture>)
    ensures r.Some? ==> IsMatch(s, pat, r.value.start, r.value.groupStart, r.value.groupEnd)
    ensures r.None? ==> forall j, p, e :: !IsMatch(s, pat, j, p, e)
    ensures r.Some? ==> forall j, p, e :: IsMatch(s, pat, j, p, e) ==>
              r.value.start <= j && (r.value.start == j ==> Preferred(r.value, j, p, e))
  {
    FindFrom(s, pat, 0)
  }

  /** `match.groupValues[1]`: the text captured by the lazy group. */
  function GroupText(s: string, c: Capture): string
    requires c.groupStart <= c.groupEnd <= |s|
  {
    s[c.groupStart..c.groupEnd]
  }
  /** A pattern whose lead holds a character the text lacks (in any case) matches nowhere. */
  lemma NoLeadNoMatch(s: string, pat: LazyPattern, k: nat)
    requires k < |pat.lead|
    requires LowerChar(pat.lead[k]) !in Lower(s)
    ensures forall j, p, e :: !IsMatch(s, pat, j, p, e)
  {
    forall j: nat, p: nat, e: nat | IsMatch(s, pat, j, p, e) ensures false {
      SliceChar(s, j, |pat.lead|, k);
    }
  }
}
