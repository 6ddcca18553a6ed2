/**
 * The platform-independent part of the solver configuration: the problem
 * categories, the two solving modes, the configuration record and the
 * keyword classifier that buckets raw text into a category.
 */
module SolverConfig {
  import opened Text

  /** Where a problem is solved: on the device or by a remote service. */
  datatype SolverMode = OFFLINE | ONLINE

  datatype ProblemComplexity =
    | SIMPLE_ARITHMETIC
    | WORD_PROBLEM
    | DISCRETE_MATH
    | REAL_ANALYSIS
    | SYMBOLIC_COMPUTATION

  /** The configuration record; the defaults are offline with no endpoint and no key. */
  datatype SolverConfig = SolverConfig(mode: SolverMode := OFFLINE, apiEndpoint: string := "", apiKey: string := "")

  /** A default-constructed configuration solves offline with an empty endpoint and key. */
  function DefaultConfig(): (c: SolverConfig)
    ensures c.mode == OFFLINE && c.apiEndpoint == [] && c.apiKey == []
  {
    SolverConfig()
  }

  /** The enum constant's name, which string templates print. */
  function ComplexityName(c: ProblemComplexity): (r: string)
    ensures |r| > 0 && forall k :: 0 <= k < |r| ==> IsUpper(r[k]) || r[k] == '_'
    ensures c == SIMPLE_ARITHMETIC ==> r == "SIMPLE_ARITHMETIC"
    ensures c == WORD_PROBLEM ==> r == "WORD_PROBLEM"
    ensures c == DISCRETE_MATH ==> r == "DISCRETE_MATH"
    ensures c == REAL_ANALYSIS ==> r == "REAL_ANALYSIS"
    ensures c == SYMBOLIC_COMPUTATION ==> r == "SYMBOLIC_COMPUTATION"
  {
    match c
    case SIMPLE_ARITHMETIC => "SIMPLE_ARITHMETIC"
    case WORD_PROBLEM => "WORD_PROBLEM"
    case DISCRETE_MATH => "DISCRETE_MATH"
    case REAL_ANALYSIS => "REAL_ANALYSIS"
    case SYMBOLIC_COMPUTATION => "SYMBOLIC_COMPUTATION"
  }

  /** Different categories print different names, so the printed name identifies the category. */
  lemma ComplexityNameIdentifies(c1: ProblemComplexity, c2: ProblemComplexity)
    ensures ComplexityName(c1) == ComplexityName(c2) <==> c1 == c2
  {
    if c1 != c2 {
      var n1, n2 := ComplexityName(c1), ComplexityName(c2);
      assert n1[0] != n2[0] || |n1| != |n2|;
    }
  }

  /** The alternatives of the discrete-mathematics regex. */
  const DiscreteKeywords: seq<string> := ["permutation", "combination", "graph", "vertex", "edge",
                                          "set theory", "logic", "propositional", "truth table", "boolean"]

  /** The alternatives of the real-analysis regex. */
  const AnalysisKeywords: seq<string> := ["limit", "continuity", "convergence", "sequence", "series",
                                          "epsilon", "delta", "supremum", "infimum", "bounded"]

  /** The alternatives of the symbolic-computation regex, `D\[` and `Integrate\[` included. */
  const SymbolicKeywords: seq<string> := ["integrate", "differentiate", "derivative", "integral", "solve",
                                          "factor", "expand", "simplify", "D[", "Integrate["]

  predicate HasDigit(input: string) {
    exists k :: 0 <= k < |input| && IsDigit(input[k])
  }

  /** One character of the regex class: a digit, + - * / ( ) . or `\s`. */
  predicate IsArithmeticChar(c: char) {
    IsDigit(c) || c == '+' || c == '-' || c == '*' || c == '/' || c == '(' || c == ')' || c == '.' || IsRegexSpace(c)
  }

  /** `input.matches(...)` with that class and `+`: non-empty and made of the class only. */
  predicate IsArithmeticText(input: string) {
    |input| > 0 && forall k :: 0 <= k < |input| ==> IsArithmeticChar(input[k])
  }

  /** `input.split(" ").size > 5 && input.contains(Regex("\\d+"))`. */
  predicate LooksLikeWordProblem(input: string) {
    |Split(input, ' ')| > 5 && HasDigit(input)
  }

  /**
   * classifyProblem: the first rule that fires decides. Discrete keywords
   * beat analysis keywords, which beat symbolic ones, which beat the
   * long-text-with-a-digit rule, which beats the arithmetic character
   * class; anything else is a word problem.
   */
  function ClassifyProblem(input: string): (r: ProblemComplexity)
    ensures r == DISCRETE_MATH <==> MentionsAny(input, DiscreteKeywords)
    ensures r == REAL_ANALYSIS <==>
              !MentionsAny(input, DiscreteKeywords) && MentionsAny(input, AnalysisKeywords)
    ensures r == SYMBOLIC_COMPUTATION <==>
              && !MentionsAny(input, DiscreteKeywords) && !MentionsAny(input, AnalysisKeywords)
              && MentionsAny(input, SymbolicKeywords)
    ensures r == SIMPLE_ARITHMETIC <==>
              && !MentionsAny(input, DiscreteKeywords) && !MentionsAny(input, AnalysisKeywords)
              && !MentionsAny(input, SymbolicKeywords)
              && !LooksLikeWordProblem(input) && IsArithmeticText(input)
    ensures r == SIMPLE_ARITHMETIC ==> |input| > 0 && forall k :: 0 <= k < |input| ==> IsArithmeticChar(input[k])
  {
    if MentionsAny(input, DiscreteKeywords) then DISCRETE_MATH
    else if MentionsAny(input, AnalysisKeywords) then REAL_ANALYSIS
    else if MentionsAny(input, SymbolicKeywords) then SYMBOLIC_COMPUTATION
    else if LooksLikeWordProblem(input) then WORD_PROBLEM
    else if IsArithmeticText(input) then SIMPLE_ARITHMETIC
    else WORD_PROBLEM
  }

  /** Text with no keyword, no digit-bearing long form and no arithmetic shape is a word problem. */
  lemma EmptyIsWordProblem()
    ensures ClassifyProblem("") == WORD_PROBLEM
  {
  }

  /** The word-problem rule counts pieces: at least five single spaces and a digit. */
  lemma WordRuleCountsSpaces(input: string)
    ensures LooksLikeWordProblem(input) <==> CountChar(input, ' ') >= 5 && HasDigit(input)
  {
    SplitCount(input, ' ');
  }

  /** The categories served remotely when the network allows it. */
  predicate IsHard(c: ProblemComplexity) {
    c == DISCRETE_MATH || c == REAL_ANALYSIS || c == SYMBOLIC_COMPUTATION
  }

  /**
   * The decision table every platform's detectBestSolverMode applies to its
   * own reachability answer: ONLINE exactly when the network is reachable
   * and the category is one of the three hard ones.
   */
  function DetectBestSolverMode(c: ProblemComplexity, networkAvailable: bool): (m: SolverMode)
    ensures m == ONLINE <==> networkAvailable && IsHard(c)
    ensures !networkAvailable ==> m == OFFLINE
    ensures c == SIMPLE_ARITHMETIC || c == WORD_PROBLEM ==> m == OFFLINE
  {
    if networkAvailable && c in [DISCRETE_MATH, REAL_ANALYSIS, SYMBOLIC_COMPUTATION] then ONLINE else OFFLINE
  }

  /** "limit of permutation", spelled as the text before the keyword and the keyword. */
  const LimitOfPermutation := "limit of " + "permutation"

  /** A discrete keyword wins over an analysis keyword: "limit of permutation" is discrete. */
  lemma LimitOfPermutationIsDiscrete()
    ensures ClassifyProblem(LimitOfPermutation) == DISCRETE_MATH
  {
    EndsWithWord("limit of ", DiscreteKeywords[0]);
    DiscreteWins(LimitOfPermutation);
  }

  /** Any discrete keyword decides the category, whatever else the text mentions. */
  lemma DiscreteWins(input: string)
    requires ContainsIgnoreCase(input, DiscreteKeywords[0])
    ensures ClassifyProblem(input) == DISCRETE_MATH
  {
    assert MentionsAny(input, DiscreteKeywords);
  }

  /** A text without letters mentions none of the keywords of a list whose keywords all hold a letter first. */
  lemma {:induction false} LetterFreeMentionsNone(s: string, keywords: seq<string>)
    requires forall i :: 0 <= i < |s| ==> !IsLetter(s[i])
    requires forall k :: 0 <= k < |keywords| ==> |keywords[k]| > 0 && IsLetter(keywords[k][0])
    ensures !MentionsAny(s, keywords)
  {
    forall k | 0 <= k < |keywords| ensures !ContainsIgnoreCase(s, keywords[k]) {
      NoLetterNoKeyword(s, keywords[k], 0);
    }
  }

  /** "1 + 2 + 3 + 4" has six spaces and digits, so the word-problem rule fires before the arithmetic one. */
  lemma SpacedSumIsWordProblem()
    ensures ClassifyProblem("1 + 2 + 3 + 4") == WORD_PROBLEM
  {
    var s := "1 + 2 + 3 + 4";
    LetterFreeMentionsNone(s, DiscreteKeywords);
    LetterFreeMentionsNone(s, AnalysisKeywords);
    LetterFreeMentionsNone(s, SymbolicKeywords);
    SpacedSumIsLong();
    WordRuleWhen(s);
  }

  /** "1 + 2 + 3 + 4" passes the word-problem test: six spaces and a digit. */
  lemma SpacedSumIsLong()
    ensures LooksLikeWordProblem("1 + 2 + 3 + 4")
  {
    var s := "1 + 2 + 3 + 4";
    SpacedSumSpaces();
    assert IsDigit(s[0]);
    WordRuleCountsSpaces(s);
  }

  lemma SpacedSumSpaces()
    ensures CountChar("1 + 2 + 3 + 4", ' ') == 6
  {
  }

  /** Long text with a digit and no keyword is a word problem, even when it looks like arithmetic. */
  lemma WordRuleWhen(input: string)
    requires !MentionsAny(input, DiscreteKeywords) && !MentionsAny(input, AnalysisKeywords)
    requires !MentionsAny(input, SymbolicKeywords) && LooksLikeWordProblem(input)
    ensures ClassifyProblem(input) == WORD_PROBLEM
  {
  }

  /** Matching ignores case, so the lower-case `d[` of "d[x]" counts as symbolic. */
  lemma LowerCaseDBracketIsSymbolic()
    ensures ClassifyProblem("d[x]") == SYMBOLIC_COMPUTATION
  {
    var s := "d[x]";
    LowerOfLowerCase(s);
    LowerOfLowerCase("edge");
    assert s[0] != "edge"[0];
    assert !MentionsAny(s, DiscreteKeywords);
    assert !MentionsAny(s, AnalysisKeywords);
    OccurrenceContained(s, SymbolicKeywords[8], 0);
  }
  /** The first line of the placeholder, written in pieces so that each can be inspected. */
  const OnlineHeader := "Online solving" + " requires API" + " implementation." + " Please" +
                        " configure API" + " endpoint and" + " key."

  /**
   * The placeholder text solveOnline returns on every platform: a fixed
   * header line, the line naming the problem's category, and a line
   * carrying the platform's offline answer `fallback`. The configuration
   * plays no part in it.
   */
  function OnlinePlaceholder(problem: string, fallback: string): (r: string)
    ensures |r| > |OnlineHeader| && r[..|OnlineHeader|] == OnlineHeader && r[|OnlineHeader|] == '\n'
    ensures |r| >= |fallback| && r[|r| - |fallback|..] == fallback
  {
    OnlineHeader + "\n" + "Problem detected: " + ComplexityName(ClassifyProblem(problem)) + "\n" +
    "Falling back to offline mode: " + fallback
  }

  /** The header is a single line. */
  lemma HeaderIsOneLine()
    ensures '\n' !in OnlineHeader
  {
    var h := ["Online solving", " requires API", " implementation.", " Please", " configure API", " endpoint and", " key."];
    assert forall k :: 0 <= k < |h[0]| ==> h[0][k] != '\n';
    assert forall k :: 0 <= k < |h[1]| ==> h[1][k] != '\n';
    assert forall k :: 0 <= k < |h[2]| ==> h[2][k] != '\n';
    assert forall k :: 0 <= k < |h[3]| ==> h[3][k] != '\n';
    assert forall k :: 0 <= k < |h[4]| ==> h[4][k] != '\n';
    assert forall k :: 0 <= k < |h[5]| ==> h[5][k] != '\n';
    assert forall k :: 0 <= k < |h[6]| ==> h[6][k] != '\n';
  }

  /**
   * Read line by line, the placeholder is exactly the header, the detected
   * category and the offline answer (when that answer is one line).
   */
  lemma OnlinePlaceholderLines(problem: string, fallback: string)
    requires '\n' !in fallback
    ensures Split(OnlinePlaceholder(problem, fallback), '\n') ==
              [OnlineHeader,
               "Problem detected: " + ComplexityName(ClassifyProblem(problem)),
               "Falling back to offline mode: " + fallback]
  {
    var second := "Problem detected: " + ComplexityName(ClassifyProblem(problem));
    var third := "Falling back to offline mode: " + fallback;
    CategoryLineIsOneLine(ClassifyProblem(problem));
    FallbackLineIsOneLine(fallback);
    HeaderThenTwoLines(second, third);
    PlaceholderPieces(problem, fallback);
  }

  /** The placeholder is the header, the category line and the fallback line, joined by line feeds. */
  lemma PlaceholderPieces(problem: string, fallback: string)
    ensures OnlinePlaceholder(problem, fallback) ==
              OnlineHeader + "\n" + ("Problem detected: " + ComplexityName(ClassifyProblem(problem))) + "\n" +
              ("Falling back to offline mode: " + fallback)
  {
    JoinPieces(OnlineHeader, "Problem detected: ", ComplexityName(ClassifyProblem(problem)),
               "Falling back to offline mode: ", fallback);
  }

  lemma JoinPieces(h: string, lead: string, c: string, fallbackLead: string, f: string)
    ensures h + "\n" + lead + c + "\n" + fallbackLead + f == h + "\n" + (lead + c) + "\n" + (fallbackLead + f)
  {
  }

  /** The header followed by two more lines splits into those three lines. */
  lemma HeaderThenTwoLines(second: string, third: string)
    requires '\n' !in second && '\n' !in third
    ensures Split(OnlineHeader + "\n" + second + "\n" + third, '\n') == [OnlineHeader, second, third]
  {
    HeaderIsOneLine();
    ThreeLines(OnlineHeader, second, third);
  }

  /** Three lines joined by line feeds split back into those lines. */
  lemma ThreeLines(x: string, y: string, z: string)
    requires '\n' !in x && '\n' !in y && '\n' !in z
    ensures Split(x + "\n" + y + "\n" + z, '\n') == [x, y, z]
  {
    assert x + "\n" + y + "\n" + z == x + ['\n'] + (y + ['\n'] + z);
    SplitAtFirst(x, '\n', y + ['\n'] + z);
    SplitAtFirst(y, '\n', z);
    SplitNoDelimiter(z, '\n');
  }

  /**
   * Two lines and a rest joined by line feeds: the first two pieces are
   * those lines, and the rest splits on its own, whatever it holds.
   */
  lemma TwoLinesThenRest(x: string, y: string, z: string)
    requires '\n' !in x && '\n' !in y
    ensures var lines := Split(x + "\n" + y + "\n" + z, '\n');
            |lines| >= 2 && lines[..2] == [x, y]
    ensures Split(x + "\n" + y + "\n" + z, '\n') == [x, y] + Split(z, '\n')
  {
    assert x + "\n" + y + "\n" + z == x + ['\n'] + (y + ['\n'] + z);
    SplitAtFirst(x, '\n', y + ['\n'] + z);
    SplitAtFirst(y, '\n', z);
  }

  /**
   * Whatever the offline answer holds, even several lines of an error
   * message, the placeholder's first two lines are the header and the
   * detected category, and the lines after them are those of
   * "Falling back to offline mode: " followed by the answer.
   */
  lemma PlaceholderLeadingLines(problem: string, fallback: string)
    ensures var lines := Split(OnlinePlaceholder(problem, fallback), '\n');
            |lines| >= 2 && lines[..2] == [OnlineHeader, "Problem detected: " + ComplexityName(ClassifyProblem(problem))]
    ensures |Split(OnlinePlaceholder(problem, fallback), '\n')| >= 3
    ensures Split(OnlinePlaceholder(problem, fallback), '\n')[2..] == Split("Falling back to offline mode: " + fallback, '\n')
  {
    HeaderIsOneLine();
    CategoryLineIsOneLine(ClassifyProblem(problem));
    PlaceholderPieces(problem, fallback);
    TwoLinesThenRest(OnlineHeader, "Problem detected: " + ComplexityName(ClassifyProblem(problem)),
                     "Falling back to offline mode: " + fallback);
  }

  /** The line carrying the offline answer is a single line when the answer is. */
  lemma FallbackLineIsOneLine(fallback: string)
    requires '\n' !in fallback
    ensures '\n' !in "Falling back to offline mode: " + fallback
  {
    var lead := "Falling back to offline mode: ";
    assert lead == "Falling back" + " to offline" + " mode: ";
    assert forall k :: 0 <= k < 12 ==> lead[k] != '\n';
    assert forall k :: 12 <= k < |lead| ==> lead[k] != '\n';
  }


  /** The line naming the category is a single line. */
  lemma CategoryLineIsOneLine(c: ProblemComplexity)
    ensures '\n' !in "Problem detected: " + ComplexityName(c)
  {
    var line := "Problem detected: " + ComplexityName(c);
    assert forall k :: 0 <= k < 18 ==> line[k] != '\n';
  }

  /**
   * The shape every platform's solveOnline shares: the header line first,
   * and three lines in all whenever the offline answer is one line.
   */
  lemma PlaceholderShape(problem: string, fallback: string)
    ensures StartsWith(OnlinePlaceholder(problem, fallback), OnlineHeader + "\n")
    ensures '\n' !in fallback ==>
              Split(OnlinePlaceholder(problem, fallback), '\n') ==
                [OnlineHeader,
                 "Problem detected: " + ComplexityName(ClassifyProblem(problem)),
                 "Falling back to offline mode: " + fallback]
  {
    var r := OnlinePlaceholder(problem, fallback);
    assert r[..|OnlineHeader| + 1] == OnlineHeader + "\n";
    if '\n' !in fallback {
      OnlinePlaceholderLines(problem, fallback);
    }
  }
}
