/**
 * The Web evaluator. Expressions are not parsed: the decimal numerals of
 * the text are combined by the first operator character present, in the
 * order + - * /. Proofs are not supported; word problems use the shared
 * keyword arithmetic.
 */
module WebMathEvaluator {
  import opened Wrappers
  import opened Text
  import KeywordArithmetic

  function Pow10(n: nat): (p: nat)
    ensures p > 0
  {
    if n == 0 then 1 else 10 * Pow10(n - 1)
  }

  /**
   * One match of `\d+(\.\d+)?`, read as the value of its digits before the
   * point, the value of its digits after the point and how many of those
   * there are (zero when there is no fractional part).
   */
  datatype Numeral = Numeral(whole: nat, fraction: nat, places: nat)

  /** `toDouble()` of a match, taken exactly. */
  function NumeralValue(n: Numeral): (v: real)
    ensures n.whole as real <= v
    ensures n.fraction < Pow10(n.places) ==> v < n.whole as real + 1.0
    ensures n.places == 0 ==> v == n.whole as real + n.fraction as real
  {
    var p := Pow10(n.places);
    assert n.fraction < p ==> n.fraction as real / p as real < 1.0 by {
      if n.fraction < p {
        QuotientBelowOne(n.fraction as real, p as real);
      }
    }
    n.whole as real + n.fraction as real / p as real
  }

  /** A fraction whose numerator is below its denominator is below one. */
  lemma QuotientBelowOne(f: real, p: real)
    requires 0.0 < p && f < p
    ensures f / p < 1.0
  {
    var q := f / p;
    assert q * p == f;
    assert (1.0 - q) * p == p - f;
  }

  /**
   * The matches of `\d+(\.\d+)?` from index `i` on, as Regex.findAll
   * reports them: a digit run, extended by a point and a second digit run
   * when both are there, then the scan goes on after the match.
   */
  function NumeralsFrom(s: string, i: nat): (r: seq<Numeral>)
    requires i <= |s|
    decreases |s| - i
  {
    if i == |s| then []
    else if IsDigit(s[i]) then
      var j := DigitRunEnd(s, i);
      if j + 1 < |s| && s[j] == '.' && IsDigit(s[j + 1]) then
        var e := DigitRunEnd(s, j + 1);
        [Numeral(DigitsValue(s[i..j]), DigitsValue(s[j + 1..e]), e - (j + 1))] +
        (if e == |s| then [] else NumeralsFrom(s, e + 1))
      else
        [Numeral(DigitsValue(s[i..j]), 0, 0)] + (if j == |s| then [] else NumeralsFrom(s, j + 1))
    else
      NumeralsFrom(s, i + 1)
  }

  function Values(ns: seq<Numeral>): (r: seq<real>)
    ensures |r| == |ns| && forall m :: 0 <= m < |ns| ==> r[m] == NumeralValue(ns[m])
  {
    seq(|ns|, m requires 0 <= m < |ns| => NumeralValue(ns[m]))
  }

  /**
   * The operands of evaluateExpression: one number per match, each worth
   * at least the digits before its point.
   */
  function Decimals(s: string): (r: seq<real>)
    ensures |r| == |NumeralsFrom(s, 0)|
    ensures forall m :: 0 <= m < |r| ==> NumeralsFrom(s, 0)[m].whole as real <= r[m]
  {
    Values(NumeralsFrom(s, 0))
  }

  /** The `\d+` run values from index `i` on, in the same scan order. */
  function RunValuesFrom(s: string, i: nat): seq<nat>
    requires i <= |s|
    decreases |s| - i
  {
    if i == |s| then []
    else if IsDigit(s[i]) then
      var j := DigitRunEnd(s, i);
      [DigitsValue(s[i..j])] + (if j == |s| then [] else RunValuesFrom(s, j + 1))
    else
      RunValuesFrom(s, i + 1)
  }

  /** Whole numbers as numerals without a fractional part. */
  function Wholes(xs: seq<nat>): (r: seq<Numeral>)
    ensures |r| == |xs| && forall m :: 0 <= m < |xs| ==> r[m] == Numeral(xs[m], 0, 0)
  {
    seq(|xs|, m requires 0 <= m < |xs| => Numeral(xs[m], 0, 0))
  }

  function Reals(xs: seq<nat>): (r: seq<real>)
    ensures |r| == |xs| && forall m :: 0 <= m < |xs| ==> r[m] == xs[m] as real
  {
    seq(|xs|, m requires 0 <= m < |xs| => xs[m] as real)
  }

  /** Without a point, the decimal scan reads exactly the digit runs. */
  lemma {:induction false} NoPointNumeralsFrom(s: string, i: nat)
    requires i <= |s|
    requires forall k :: i <= k < |s| ==> s[k] != '.'
    ensures NumeralsFrom(s, i) == Wholes(RunValuesFrom(s, i))
    decreases |s| - i
  {
    if i == |s| {
      assert Wholes([]) == [];
    } else if IsDigit(s[i]) {
      var j := DigitRunEnd(s, i);
      if j < |s| {
        NoPointNumeralsFrom(s, j + 1);
      }
      NoPointRun(s, i);
    } else {
      NoPointNumeralsFrom(s, i + 1);
      SkipAt(s, i);
    }
  }

  /** One digit run of a text without a point: one whole number on both sides. */
  lemma NoPointRun(s: string, i: nat)
    requires i < |s| && IsDigit(s[i])
    requires forall k :: i <= k < |s| ==> s[k] != '.'
    requires var j := DigitRunEnd(s, i); j < |s| ==> NumeralsFrom(s, j + 1) == Wholes(RunValuesFrom(s, j + 1))
    ensures NumeralsFrom(s, i) == Wholes(RunValuesFrom(s, i))
  {
    var j := DigitRunEnd(s, i);
    var x := DigitsValue(s[i..j]);
    var values := if j == |s| then [] else RunValuesFrom(s, j + 1);
    assert j < |s| ==> s[j] != '.';
    WholeAt(s, i, j);
    RunValueAt(s, i);
    WholesCons(x, values);
  }

  /** A character that is not a digit is passed over by both scans. */
  lemma SkipAt(s: string, i: nat)
    requires i < |s| && !IsDigit(s[i])
    ensures NumeralsFrom(s, i) == NumeralsFrom(s, i + 1) && RunValuesFrom(s, i) == RunValuesFrom(s, i + 1)
  {
  }

  /** A run not followed by a point and a digit is read as a whole number. */
  lemma WholeAt(s: string, i: nat, j: nat)
    requires i < |s| && IsDigit(s[i])
    requires j == DigitRunEnd(s, i) && !FractionFollows(s, j)
    ensures NumeralsFrom(s, i) == [Numeral(DigitsValue(s[i..j]), 0, 0)] + (if j == |s| then [] else NumeralsFrom(s, j + 1))
  {
    // One case at a time: the text ends with this run, or the scan resumes after it.
    if j == |s| {
    } else {
    }
  }

  lemma RunValueAt(s: string, i: nat)
    requires i < |s| && IsDigit(s[i])
    ensures var j := DigitRunEnd(s, i);
            RunValuesFrom(s, i) == [DigitsValue(s[i..j])] + (if j == |s| then [] else RunValuesFrom(s, j + 1))
  {
  }

  lemma WholesCons(x: nat, xs: seq<nat>)
    ensures Wholes([x] + xs) == [Numeral(x, 0, 0)] + Wholes(xs)
  {
    var l, r := Wholes([x] + xs), [Numeral(x, 0, 0)] + Wholes(xs);
    forall m | 0 <= m < |l| ensures l[m] == r[m] {
      if m > 0 {
        assert ([x] + xs)[m] == xs[m - 1];
      }
    }
  }

  /** `value` is the value of the digits `sp` of `s`. */
  predicate RunRead(s: string, value: nat, sp: Span) {
    && sp.start <= sp.end <= |s|
    && (forall k :: sp.start <= k < sp.end ==> IsDigit(s[k]))
    && value == DigitsValue(s[sp.start..sp.end])
  }

  /** `values` are the values of the digit runs `spans` of `s`, one for one. */
  predicate RunsRead(s: string, values: seq<nat>, spans: seq<Span>) {
    |values| == |spans| && forall m :: 0 <= m < |spans| ==> RunRead(s, values[m], spans[m])
  }

  lemma RunsReadCons(s: string, i: nat, j: nat, values: seq<nat>, spans: seq<Span>)
    requires i <= j <= |s| && forall k :: i <= k < j ==> IsDigit(s[k])
    requires RunsRead(s, values, spans)
    ensures RunsRead(s, [DigitsValue(s[i..j])] + values, [Span(i, j)] + spans)
  {
    var vs, sps := [DigitsValue(s[i..j])] + values, [Span(i, j)] + spans;
    forall m | 0 <= m < |sps| ensures RunRead(s, vs[m], sps[m]) {
      if m > 0 {
        assert sps[m] == spans[m - 1] && vs[m] == values[m - 1];
      }
    }
  }

  /** The scan-order run values are the values of the `\d+` matches. */
  lemma {:induction false} RunValuesFromSpans(s: string, i: nat)
    requires i <= |s|
    ensures RunsRead(s, RunValuesFrom(s, i), DigitSpansFrom(s, i))
    decreases |s| - i
  {
    if i == |s| {
    } else if IsDigit(s[i]) {
      var j := DigitRunEnd(s, i);
      RunValueAt(s, i);
      if j < |s| {
        RunValuesFromSpans(s, j + 1);
        RunThenMore(s, i, j);
        RunsReadCons(s, i, j, RunValuesFrom(s, j + 1), DigitSpansFrom(s, j + 1));
      } else {
        RunsReadCons(s, i, j, [], []);
        assert DigitSpansFrom(s, i) == [Span(i, j)] + [];
      }
    } else {
      RunValuesFromSpans(s, i + 1);
      SkipAt(s, i);
      assert DigitSpansFrom(s, i) == DigitSpansFrom(s, i + 1);
    }
  }

  /** For a text without a decimal point, the Web operands are the `\d+` operands of the other platforms. */
  lemma NoPointDecimals(s: string)
    requires '.' !in s
    ensures Decimals(s) == Reals(DigitRunValues(s))
  {
    NoPointNumeralsFrom(s, 0);
    RunValuesFromSpans(s, 0);
    var spans := DigitSpans(s);
    assert RunValuesFrom(s, 0) == DigitRunValues(s) by {
      forall m | 0 <= m < |spans|
        ensures RunValuesFrom(s, 0)[m] == DigitRunValues(s)[m]
      {
        assert DigitRuns(s)[m] == s[spans[m].start..spans[m].end];
      }
    }
    var xs := DigitRunValues(s);
    forall m | 0 <= m < |xs| ensures Decimals(s)[m] == Reals(xs)[m] {
      assert NumeralValue(Numeral(xs[m], 0, 0)) == xs[m] as real;
    }
  }

  // ------------------------------------------------------------ the matches of the decimal scan

  /**
   * Where one match of `\d+(\.\d+)?` lies: its integer digits are
   * s[start..point]; when point < end, s[point] is the '.' and its
   * fraction digits are s[point + 1..end].
   */
  datatype NumeralSpan = NumeralSpan(start: nat, point: nat, end: nat)

  /** A point followed by a digit at index `j`: the optional `(\.\d+)` can match there. */
  predicate FractionFollows(s: string, j: nat) {
    j + 1 < |s| && s[j] == '.' && IsDigit(s[j + 1])
  }

  /** Where the match whose integer digits end at `j` ends. */
  function MatchEnd(s: string, j: nat): (e: nat)
    requires j <= |s|
    ensures j <= e <= |s|
  {
    if FractionFollows(s, j) then DigitRunEnd(s, j + 1) else j
  }

  /** The matches of the scan NumeralsFrom performs, as index ranges. */
  function NumeralSpansFrom(s: string, i: nat): seq<NumeralSpan>
    requires i <= |s|
    decreases |s| - i
  {
    if i == |s| then []
    else if IsDigit(s[i]) then
      var j := DigitRunEnd(s, i);
      var e := MatchEnd(s, j);
      [NumeralSpan(i, j, e)] + (if e == |s| then [] else NumeralSpansFrom(s, e + 1))
    else
      NumeralSpansFrom(s, i + 1)
  }

  /**
   * `sp` is a match of `\d+(\.\d+)?` as a greedy engine takes it: a
   * maximal digit run, extended by the point and the maximal digit run
   * after it exactly when a point followed by a digit is there.
   */
  predicate IsNumeralMatch(s: string, sp: NumeralSpan) {
    && sp.start < sp.point <= sp.end <= |s|
    && (forall k :: sp.start <= k < sp.point ==> IsDigit(s[k]))
    && (sp.start == 0 || !IsDigit(s[sp.start - 1]))
    && (sp.point == |s| || !IsDigit(s[sp.point]))
    && (sp.point < sp.end <==> FractionFollows(s, sp.point))
    && (sp.point < sp.end ==> && (forall k :: sp.point < k < sp.end ==> IsDigit(s[k]))
                              && (sp.end == |s| || !IsDigit(s[sp.end])))
  }

  /** `n` is what toDouble() reads from the match `sp` of `s`, with a fraction below one. */
  predicate NumeralRead(s: string, n: Numeral, sp: NumeralSpan) {
    && sp.start <= sp.point <= sp.end <= |s|
    && (forall k :: sp.start <= k < sp.point ==> IsDigit(s[k]))
    && n.whole == DigitsValue(s[sp.start..sp.point])
    && n.fraction < Pow10(n.places)
    && (sp.point == sp.end ==> n.fraction == 0 && n.places == 0)
    && (sp.point < sp.end ==> && (forall k :: sp.point < k < sp.end ==> IsDigit(s[k]))
                              && n.fraction == DigitsValue(s[sp.point + 1..sp.end])
                              && n.places == sp.end - (sp.point + 1))
  }

  /** A string of d digits is worth less than 10^d. */
  lemma {:induction false} DigitsBelow(ds: string)
    requires forall k :: 0 <= k < |ds| ==> IsDigit(ds[k])
    ensures DigitsValue(ds) < Pow10(|ds|)
  {
    if ds != [] {
      var front := ds[..|ds| - 1];
      DigitsBelow(front);
      var v, d := DigitsValue(front), DigitValue(ds[|ds| - 1]);
      assert v + 1 <= Pow10(|front|);
      assert v * 10 + 10 <= Pow10(|front|) * 10;
    }
  }

  /** The scan at a digit: one match, then the scan after it. */
  lemma SpanAt(s: string, i: nat)
    requires i < |s| && IsDigit(s[i])
    ensures var e := MatchEnd(s, DigitRunEnd(s, i));
            NumeralSpansFrom(s, i) ==
              [NumeralSpan(i, DigitRunEnd(s, i), e)] + (if e == |s| then [] else NumeralSpansFrom(s, e + 1))
  {
  }

  /** A run followed by a point and a digit is read with its fraction. */
  lemma FractionRead(s: string, i: nat, j: nat, e: nat)
    requires i < |s| && IsDigit(s[i])
    requires j == DigitRunEnd(s, i) && FractionFollows(s, j) && e == DigitRunEnd(s, j + 1)
    ensures NumeralRead(s, Numeral(DigitsValue(s[i..j]), DigitsValue(s[j + 1..e]), e - (j + 1)), NumeralSpan(i, j, e))
  {
    DigitsBelow(s[j + 1..e]);
  }

  /** A run not followed by a point and a digit is read as its whole number alone. */
  lemma WholeRead(s: string, i: nat, j: nat)
    requires i < |s| && IsDigit(s[i])
    requires j == DigitRunEnd(s, i) && !FractionFollows(s, j)
    ensures NumeralRead(s, Numeral(DigitsValue(s[i..j]), 0, 0), NumeralSpan(i, j, j))
  {
    assert Pow10(0) == 1;
  }

  /** The numeral scan at a digit, in terms of the same match. */
  lemma NumeralAt(s: string, i: nat, j: nat, e: nat)
    requires i < |s| && IsDigit(s[i])
    requires j == DigitRunEnd(s, i) && e == MatchEnd(s, j)
    ensures |NumeralsFrom(s, i)| > 0
    ensures NumeralsFrom(s, i)[1..] == (if e == |s| then [] else NumeralsFrom(s, e + 1))
    ensures NumeralRead(s, NumeralsFrom(s, i)[0], NumeralSpan(i, j, e))
  {
    if FractionFollows(s, j) {
      assert e == DigitRunEnd(s, j + 1);
      FractionAt(s, i, j, e);
      FractionRead(s, i, j, e);
      HeadAndRest(NumeralsFrom(s, i), Numeral(DigitsValue(s[i..j]), DigitsValue(s[j + 1..e]), e - (j + 1)),
                  if e == |s| then [] else NumeralsFrom(s, e + 1));
    } else {
      WholeAt(s, i, j);
      WholeRead(s, i, j);
      HeadAndRest(NumeralsFrom(s, i), Numeral(DigitsValue(s[i..j]), 0, 0), if j == |s| then [] else NumeralsFrom(s, j + 1));
    }
  }

  /** A sequence built as a head and a rest gives them back. */
  lemma HeadAndRest(ns: seq<Numeral>, n: Numeral, rest: seq<Numeral>)
    requires ns == [n] + rest
    ensures |ns| > 0 && ns[0] == n && ns[1..] == rest
  {
  }

  /** `numerals` are read from `spans`, one for one. */
  predicate NumeralsRead(s: string, numerals: seq<Numeral>, spans: seq<NumeralSpan>) {
    |numerals| == |spans| && forall m :: 0 <= m < |spans| ==> NumeralRead(s, numerals[m], spans[m])
  }

  lemma NumeralsReadCons(s: string, n: Numeral, sp: NumeralSpan, ns: seq<Numeral>, sps: seq<NumeralSpan>)
    requires NumeralRead(s, n, sp) && NumeralsRead(s, ns, sps)
    ensures NumeralsRead(s, [n] + ns, [sp] + sps)
  {
    var l, r := [n] + ns, [sp] + sps;
    forall m | 0 <= m < |r| ensures NumeralRead(s, l[m], r[m]) {
      if m > 0 {
        assert l[m] == ns[m - 1] && r[m] == sps[m - 1];
      }
    }
  }

  /** Each numeral of the scan is what toDouble() reads from the matching span. */
  lemma {:induction false} NumeralsFromRead(s: string, i: nat)
    requires i <= |s|
    ensures NumeralsRead(s, NumeralsFrom(s, i), NumeralSpansFrom(s, i))
    decreases |s| - i
  {
    if i < |s| {
      if IsDigit(s[i]) {
        var j := DigitRunEnd(s, i);
        var e := MatchEnd(s, j);
        NumeralAt(s, i, j, e);
        SpanAt(s, i);
        var ns := NumeralsFrom(s, i);
        if e < |s| {
          NumeralsFromRead(s, e + 1);
        }
        NumeralsReadCons(s, ns[0], NumeralSpan(i, j, e), ns[1..], if e == |s| then [] else NumeralSpansFrom(s, e + 1));
        assert ns == [ns[0]] + ns[1..];
      } else {
        NumeralsFromRead(s, i + 1);
        SkipAt(s, i);
      }
    }
  }

  /** The span scan passes over a character that is not a digit. */
  lemma SpanSkipAt(s: string, i: nat)
    requires i < |s| && !IsDigit(s[i])
    ensures NumeralSpansFrom(s, i) == NumeralSpansFrom(s, i + 1)
  {
  }

  /** The match found at a digit that starts a run is a match of the regex. */
  lemma MatchAtRun(s: string, i: nat)
    requires i < |s| && IsDigit(s[i]) && (i == 0 || !IsDigit(s[i - 1]))
    ensures IsNumeralMatch(s, NumeralSpan(i, DigitRunEnd(s, i), MatchEnd(s, DigitRunEnd(s, i))))
  {
  }

  /** Every span of `sps` is a match of `\d+(\.\d+)?` starting at or after `i`. */
  predicate MatchesFrom(s: string, sps: seq<NumeralSpan>, i: nat) {
    forall m :: 0 <= m < |sps| ==> i <= sps[m].start && IsNumeralMatch(s, sps[m])
  }

  lemma MatchesFromCons(s: string, sp: NumeralSpan, sps: seq<NumeralSpan>, i: nat, i': nat)
    requires i <= sp.start && IsNumeralMatch(s, sp)
    requires i <= i' && MatchesFrom(s, sps, i')
    ensures MatchesFrom(s, [sp] + sps, i)
  {
    var l := [sp] + sps;
    forall m | 0 <= m < |l| ensures i <= l[m].start && IsNumeralMatch(s, l[m]) {
      if m > 0 {
        assert l[m] == sps[m - 1];
      }
    }
  }

  /** Every span found from `i` on is a match of `\d+(\.\d+)?` starting at or after `i`. */
  lemma {:induction false} NumeralSpansFromAreMatches(s: string, i: nat)
    requires i <= |s|
    requires i == 0 || i == |s| || !IsDigit(s[i - 1])
    ensures MatchesFrom(s, NumeralSpansFrom(s, i), i)
    decreases |s| - i
  {
    if i < |s| {
      if IsDigit(s[i]) {
        var j := DigitRunEnd(s, i);
        var e := MatchEnd(s, j);
        SpanAt(s, i);
        MatchAtRun(s, i);
        if e < |s| {
          NumeralSpansFromAreMatches(s, e + 1);
          MatchesFromCons(s, NumeralSpan(i, j, e), NumeralSpansFrom(s, e + 1), i, e + 1);
        } else {
          MatchesFromCons(s, NumeralSpan(i, j, e), [], i, i);
        }
      } else {
        SpanSkipAt(s, i);
        NumeralSpansFromAreMatches(s, i + 1);
      }
    }
  }

  /** Each span found from `i` on starts after the previous one has ended. */
  lemma {:induction false} NumeralSpansFromOrdered(s: string, i: nat)
    requires i <= |s|
    requires i == 0 || i == |s| || !IsDigit(s[i - 1])
    ensures forall m :: 0 < m < |NumeralSpansFrom(s, i)| ==>
              NumeralSpansFrom(s, i)[m - 1].end < NumeralSpansFrom(s, i)[m].start
    decreases |s| - i
  {
    if i < |s| {
      if IsDigit(s[i]) {
        var e := MatchEnd(s, DigitRunEnd(s, i));
        SpanAt(s, i);
        if e < |s| {
          NumeralSpansFromOrdered(s, e + 1);
          NumeralSpansFromAreMatches(s, e + 1);
        }
      } else {
        SpanSkipAt(s, i);
        NumeralSpansFromOrdered(s, i + 1);
      }
    }
  }

  /** Every digit at or after `i` lies inside one of the spans found from `i` on. */
  lemma {:induction false} NumeralSpansFromComplete(s: string, i: nat, k: nat)
    requires i <= k < |s| && IsDigit(s[k])
    ensures exists m :: 0 <= m < |NumeralSpansFrom(s, i)| &&
              NumeralSpansFrom(s, i)[m].start <= k < NumeralSpansFrom(s, i)[m].end
    decreases |s| - i
  {
    var sps := NumeralSpansFrom(s, i);
    if IsDigit(s[i]) {
      var j := DigitRunEnd(s, i);
      var e := MatchEnd(s, j);
      SpanAt(s, i);
      if k < e {
        assert sps[0].start <= k < sps[0].end;
      } else {
        assert !IsDigit(s[e]);
        NumeralSpansFromComplete(s, e + 1, k);
        var rest := NumeralSpansFrom(s, e + 1);
        var m :| 0 <= m < |rest| && rest[m].start <= k < rest[m].end;
        assert sps[m + 1] == rest[m];
      }
    } else {
      SpanSkipAt(s, i);
      NumeralSpansFromComplete(s, i + 1, k);
    }
  }

  /**
   * Regex("\\d+(\\.\\d+)?").findAll(s): the matches, left to right, none
   * overlapping the next.
   */
  function NumeralSpans(s: string): (r: seq<NumeralSpan>)
    ensures forall m :: 0 <= m < |r| ==> IsNumeralMatch(s, r[m])
    ensures forall m :: 0 < m < |r| ==> r[m - 1].end < r[m].start
  {
    NumeralSpansFromAreMatches(s, 0);
    NumeralSpansFromOrdered(s, 0);
    NumeralSpansFrom(s, 0)
  }

  /**
   * The operands of evaluateExpression are the values toDouble() reads from
   * the matches, one for one, each below its whole part plus one, and every
   * digit of the text belongs to some match.
   */
  lemma DecimalsRead(s: string)
    ensures NumeralsRead(s, NumeralsFrom(s, 0), NumeralSpans(s))
    ensures |Decimals(s)| == |NumeralSpans(s)|
    ensures forall m :: 0 <= m < |Decimals(s)| ==>
              && Decimals(s)[m] == NumeralValue(NumeralsFrom(s, 0)[m])
              && NumeralsFrom(s, 0)[m].whole as real <= Decimals(s)[m] < NumeralsFrom(s, 0)[m].whole as real + 1.0
    ensures forall k :: 0 <= k < |s| && IsDigit(s[k]) ==>
              exists m :: 0 <= m < |NumeralSpans(s)| && NumeralSpans(s)[m].start <= k < NumeralSpans(s)[m].end
  {
    NumeralsFromRead(s, 0);
    assert NumeralSpans(s) == NumeralSpansFrom(s, 0);
    var ns := NumeralsFrom(s, 0);
    forall m | 0 <= m < |ns| ensures ns[m].fraction < Pow10(ns[m].places) {
      assert NumeralRead(s, ns[m], NumeralSpans(s)[m]);
    }
    forall k | 0 <= k < |s| && IsDigit(s[k])
      ensures exists m :: 0 <= m < |NumeralSpans(s)| && NumeralSpans(s)[m].start <= k < NumeralSpans(s)[m].end
    {
      NumeralSpansFromComplete(s, 0, k);
    }
  }

  function RealTotal(xs: seq<real>): real {
    if xs == [] then 0.0 else xs[0] + RealTotal(xs[1..])
  }

  function RealProduct(xs: seq<real>): real {
    if xs == [] then 1.0 else xs[0] * RealProduct(xs[1..])
  }

  /** Sums and products of integers are the same whether taken over naturals or over reals. */
  lemma {:induction false} RealsAgree(xs: seq<nat>)
    ensures RealTotal(Reals(xs)) == KeywordArithmetic.Total(xs) as real
    ensures RealProduct(Reals(xs)) == KeywordArithmetic.Product(xs) as real
  {
    if xs != [] {
      assert Reals(xs)[1..] == Reals(xs[1..]);
      RealsAgree(xs[1..]);
    }
  }

  /**
   * The operator rule on operands `n`, given which operator characters the
   * text holds. A '+' sums every operand; otherwise a '-' with two operands
   * or more subtracts the rest from the first; otherwise a '*' multiplies
   * from 1; otherwise a '/' with two operands or more and a non-zero second
   * divides the first by the second. Nothing else has a value.
   */
  function Combine(plus: bool, minus: bool, times: bool, slash: bool, n: seq<real>): (r: Option<real>)
    ensures plus ==> r == Some(RealTotal(n))
    ensures !plus && minus && |n| >= 2 ==> r == Some(n[0] - RealTotal(n[1..]))
    ensures !plus && !(minus && |n| >= 2) && times ==> r == Some(RealProduct(n))
    ensures r.Some? && !plus && !(minus && |n| >= 2) && !times ==>
              slash && |n| >= 2 && n[1] != 0.0 && r.value * n[1] == n[0]
    ensures r == None <==> !plus && !(minus && |n| >= 2) && !times && !(slash && |n| >= 2 && n[1] != 0.0)
  {
    if plus then Some(RealTotal(n))
    else if minus && |n| >= 2 then Some(n[0] - RealTotal(n[1..]))
    else if times then Some(RealProduct(n))
    else if slash && |n| >= 2 && n[1] != 0.0 then DivisionUndone(n[0], n[1]); Some(n[0] / n[1])
    else None
  }

  /** The number evaluateExpression reports, or None for its error branch. */
  function WebValue(expression: string): (r: Option<real>)
    ensures var n := Decimals(expression);
            && ('+' in expression ==> r == Some(RealTotal(n)))
            && ('+' !in expression && '-' in expression && |n| >= 2 ==> r == Some(n[0] - RealTotal(n[1..])))
            && ('+' !in expression && !('-' in expression && |n| >= 2) && '*' in expression ==>
                  r == Some(RealProduct(n)))
            && (r == None <==>
                  && '+' !in expression && !('-' in expression && |n| >= 2) && '*' !in expression
                  && !('/' in expression && |n| >= 2 && n[1] != 0.0))
  {
    Combine('+' in expression, '-' in expression, '*' in expression, '/' in expression, Decimals(expression))
  }

  /** When only the '/' rule can apply, a value is the quotient of the first two operands. */
  lemma WebQuotient(expression: string)
    requires WebValue(expression).Some?
    requires '+' !in expression && '*' !in expression
    requires !('-' in expression && |Decimals(expression)| >= 2)
    ensures var n := Decimals(expression);
            '/' in expression && |n| >= 2 && n[1] != 0.0 && WebValue(expression).value * n[1] == n[0]
  {
    var n := Decimals(expression);
    assert WebValue(expression) == Combine(false, '-' in expression, false, '/' in expression, n);
  }

  lemma DivisionUndone(x: real, y: real)
    requires y != 0.0
    ensures (x / y) * y == x
  {
  }

  /**
   * With no decimal point, the '+' and '*' branches compute what the
   * keyword solver's sum and product compute on the same digit runs.
   */
  lemma WebAgreesWithKeywordArithmetic(expression: string)
    requires '.' !in expression
    ensures '+' in expression ==>
              WebValue(expression) == Some(KeywordArithmetic.Apply(KeywordArithmetic.Add, DigitRunValues(expression)))
    ensures '+' !in expression && '-' !in expression && '*' in expression ==>
              WebValue(expression) == Some(KeywordArithmetic.Apply(KeywordArithmetic.Multiply, DigitRunValues(expression)))
  {
    NoPointDecimals(expression);
    RealsAgree(DigitRunValues(expression));
  }

  const DecimalSumText := "3.5 + 1.5"

  /** A run followed by a point and a digit is read with its fractional part. */
  lemma FractionAt(s: string, i: nat, j: nat, e: nat)
    requires i < |s| && IsDigit(s[i])
    requires j == DigitRunEnd(s, i) && FractionFollows(s, j) && e == DigitRunEnd(s, j + 1)
    ensures NumeralsFrom(s, i) == [Numeral(DigitsValue(s[i..j]), DigitsValue(s[j + 1..e]), e - (j + 1))] +
                                  (if e == |s| then [] else NumeralsFrom(s, e + 1))
  {
    // One case at a time: the text ends with this match, or the scan resumes after it.
    if e == |s| {
    } else {
    }
  }

  /** A one-digit numeral with one decimal place, written `d.f`, is read as d and f tenths. */
  lemma OnePlaceAt(s: string, i: nat)
    requires i + 2 < |s| && IsDigit(s[i]) && s[i + 1] == '.' && IsDigit(s[i + 2])
    requires i + 3 == |s| || !IsDigit(s[i + 3])
    ensures NumeralsFrom(s, i) == [Numeral(DigitValue(s[i]), DigitValue(s[i + 2]), 1)] +
                                  (if i + 3 == |s| then [] else NumeralsFrom(s, i + 4))
  {
    assert DigitRunEnd(s, i + 1) == i + 1;
    assert DigitRunEnd(s, i) == i + 1;
    assert DigitRunEnd(s, i + 3) == i + 3;
    assert DigitRunEnd(s, i + 2) == i + 3;
    FractionAt(s, i, i + 1, i + 3);
    assert DigitsValue(s[i..i + 1]) == DigitValue(s[i]) by {
      assert s[i..i + 1][..0] == [];
    }
    assert DigitsValue(s[i + 2..i + 3]) == DigitValue(s[i + 2]) by {
      assert s[i + 2..i + 3][..0] == [];
    }
  }

  /** The scan of "3.5 + 1.5" reads 3.5 first and resumes after the space that ends it. */
  lemma DecimalSumFirst()
    ensures NumeralsFrom(DecimalSumText, 0) == [Numeral(3, 5, 1)] + NumeralsFrom(DecimalSumText, 4)
  {
    var s := DecimalSumText;
    OnePlaceAt(s, 0);
  }

  /** The scan from the second numeral reads 1.5 and stops at the end of the text. */
  lemma DecimalSumSecond()
    ensures NumeralsFrom(DecimalSumText, 4) == [Numeral(1, 5, 1)]
  {
    var s := DecimalSumText;
    SkipAt(s, 4);
    SkipAt(s, 5);
    OnePlaceAt(s, 6);
  }

  /** Decimal points are honoured: "3.5 + 1.5" has the two operands 3.5 and 1.5. */
  lemma DecimalSumOperands()
    ensures Decimals(DecimalSumText) == [3.5, 1.5]
  {
    DecimalSumFirst();
    DecimalSumSecond();
    var a, b := Numeral(3, 5, 1), Numeral(1, 5, 1);
    assert NumeralsFrom(DecimalSumText, 0) == [a, b];
    ValuesOfTwo(a, b);
    OnePlace(a);
    OnePlace(b);
  }

  lemma ValuesOfTwo(a: Numeral, b: Numeral)
    ensures Values([a, b]) == [NumeralValue(a), NumeralValue(b)]
  {
  }

  /** A numeral with one digit after the point is worth its whole part plus that digit in tenths. */
  lemma OnePlace(n: Numeral)
    requires n.places == 1
    ensures NumeralValue(n) == n.whole as real + n.fraction as real / 10.0
  {
    assert Pow10(1) == 10;
  }

  /** "3.5 + 1.5" is worth 5. */
  lemma DecimalSum()
    ensures WebValue(DecimalSumText) == Some(5.0)
  {
    DecimalSumOperands();
    assert DecimalSumText[4] == '+';
    PlusTotals(DecimalSumText, [3.5, 1.5]);
    assert RealTotal([3.5, 1.5]) == 5.0;
  }

  /** With a '+' anywhere, the value is the total of the operands. */
  lemma PlusTotals(expression: string, n: seq<real>)
    requires '+' in expression && Decimals(expression) == n
    ensures WebValue(expression) == Some(RealTotal(n))
  {
  }

  const WebUnsupported := "Error: Only basic arithmetic operations are supported for web"

  /** evaluateExpression, with Double.toString as `render`: the value rendered, or the fixed refusal. */
  function EvaluateExpression(expression: string, render: real -> string): (r: string)
    ensures WebValue(expression).Some? ==> r == render(WebValue(expression).value)
    ensures WebValue(expression) == None ==> r == WebUnsupported
  {
    match WebValue(expression)
    case Some(v) => render(v)
    case None => WebUnsupported
  }

  const ProofUnsupported := "Proof solving is not supported on web platform."

  /** proveExpression: the same refusal for every request. */
  function ProveExpression(expression: string): (r: string)
    ensures r == ProofUnsupported
  {
    ProofUnsupported
  }

  /** getPlatformName. */
  function GetPlatformName(): (r: string)
    ensures r == "Web"
  {
    "Web"
  }
}

/**
 * The Web side of the solver configuration: the network is always taken to
 * be reachable, so the category alone decides the mode.
 */
module WebSolverConfig {
  import opened Text
  import SC = SolverConfig
  import WebMathEvaluator

  /** isNetworkAvailable: always true in a browser. */
  function IsNetworkAvailable(): (r: bool)
    ensures r
  {
    true
  }

  /** detectBestSolverMode: online exactly for the three hard categories. */
  function DetectBestSolverMode(c: SC.ProblemComplexity): (m: SC.SolverMode)
    ensures m == SC.ONLINE <==> c == SC.DISCRETE_MATH || c == SC.REAL_ANALYSIS || c == SC.SYMBOLIC_COMPUTATION
    ensures m == SC.OFFLINE <==> c == SC.SIMPLE_ARITHMETIC || c == SC.WORD_PROBLEM
  {
    SC.DetectBestSolverMode(c, IsNetworkAvailable())
  }

  /**
   * solveOnline: the placeholder text, whose last line carries the Web
   * evaluateExpression answer. The configuration is not consulted.
   */
  function SolveOnline(problem: string, config: SC.SolverConfig, render: real -> string): (r: string)
    ensures StartsWith(r, SC.OnlineHeader + "\n")
    ensures var lines := Split(r, '\n');
            |lines| >= 2 && lines[..2] == [SC.OnlineHeader, "Problem detected: " + SC.ComplexityName(SC.ClassifyProblem(problem))]
    ensures |Split(r, '\n')| >= 3
    ensures Split(r, '\n')[2..] == Split("Falling back to offline mode: " + WebMathEvaluator.EvaluateExpression(problem, render), '\n')
    ensures var fallback := WebMathEvaluator.EvaluateExpression(problem, render);
            '\n' !in fallback ==>
              Split(r, '\n') == [SC.OnlineHeader,
                                 "Problem detected: " + SC.ComplexityName(SC.ClassifyProblem(problem)),
                                 "Falling back to offline mode: " + fallback]
  {
    var fallback := WebMathEvaluator.EvaluateExpression(problem, render);
    SC.PlaceholderShape(problem, fallback);
    SC.PlaceholderLeadingLines(problem, fallback);
    SC.OnlinePlaceholder(problem, fallback)
  }

  /** The configuration plays no part in the online placeholder. */
  lemma SolveOnlineIgnoresConfig(problem: string, c1: SC.SolverConfig, c2: SC.SolverConfig, render: real -> string)
    ensures SolveOnline(problem, c1, render) == SolveOnline(problem, c2, render)
  {
  }
}
