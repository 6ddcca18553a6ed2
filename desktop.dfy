/**
 * The desktop evaluator. Expressions and proof requests are handed to the
 * Symja evaluator, given here as the parameter `symja`; word problems are
 * first rewritten into a Symja expression by an ordered chain of keyword
 * tests. Every outcome is reported as text behind a fixed prefix.
 */
module DesktopMathEvaluator {
  import opened Wrappers
  import opened Text
  import opened LazyRegex
  import opened ForeignEval

  /** The text reported for an exception without a message. */
  const NoMessage := "An error occurred"

  /**
   * evaluateExpression: Symja's answer behind "Result: ", or the message of
   * the exception it threw behind "Error evaluating expression: ". The two
   * kinds of answer are told apart by their prefix.
   */
  function EvaluateExpression(expression: string, symja: string -> Outcome): (r: string)
    ensures symja(expression).Value? ==> StartsWith(r, "Result: ") && r[8..] == symja(expression).text
    ensures symja(expression).Thrown? ==>
              && StartsWith(r, "Error evaluating expression: ")
              && r[29..] == MessageOr(symja(expression).message, NoMessage)
    ensures StartsWith(r, "Result: ") <==> symja(expression).Value?
  {
    match symja(expression)
    case Value(text) => "Result: " + text
    case Thrown(message) =>
      var r := "Error evaluating expression: " + MessageOr(message, NoMessage);
      DistinctPrefixes(r, "Error", "Result: ");
      r
  }

  /** A text that starts with `p` does not start with a `q` whose first character differs. */
  lemma DistinctPrefixes(r: string, p: string, q: string)
    requires StartsWith(r, p) && |p| > 0 && |q| > 0 && p[0] != q[0]
    ensures !StartsWith(r, q)
  {
    assert r[0] == p[0];
  }

  // ------------------------------------------------------------ proveExpression

  /** The proof requests the desktop evaluator knows, and the Symja expression for each. */
  const ProofTable: map<string, string> := map[
    "That the empty set is a subset of all sets" := "ForAll({A}, Implies(Element(x, {}), Element(x, A)))",
    "The Irrationality of \U{221A}2" := "Element(Surd(2, 2), Reals)",
    "Bernoulli's Inequality" := "BernoulliInequality[n, x]",
    "The limit of 3x as x approaches 2 is 6" := "Limit(3*x, x->2)",
    "Area of an Annulus" := "Integrate[2*Pi*rho, {rho, r, R}]"
  ]

  /**
   * The `when (expression)` of proveExpression: an exact, case-sensitive
   * lookup of the five known requests; anything else becomes `False`.
   */
  function ProofTarget(expression: string): (r: string)
    ensures expression in ProofTable ==> r == ProofTable[expression]
    ensures expression !in ProofTable ==> r == "False"
    ensures r == "False" <==> expression !in ProofTable
  {
    if expression == "That the empty set is a subset of all sets" then
      "ForAll({A}, Implies(Element(x, {}), Element(x, A)))"
    else if expression == "The Irrationality of \U{221A}2" then "Element(Surd(2, 2), Reals)"
    else if expression == "Bernoulli's Inequality" then "BernoulliInequality[n, x]"
    else if expression == "The limit of 3x as x approaches 2 is 6" then "Limit(3*x, x->2)"
    else if expression == "Area of an Annulus" then "Integrate[2*Pi*rho, {rho, r, R}]"
    else "False"
  }

  /** proveExpression: Symja's answer for the looked-up expression, behind "Proof result: ". */
  function ProveExpression(expression: string, symja: string -> Outcome): (r: string)
    ensures symja(ProofTarget(expression)).Value? ==>
              StartsWith(r, "Proof result: ") && r[14..] == symja(ProofTarget(expression)).text
    ensures symja(ProofTarget(expression)).Thrown? ==>
              && StartsWith(r, "Error proving expression: ")
              && r[26..] == MessageOr(symja(ProofTarget(expression)).message, NoMessage)
    ensures StartsWith(r, "Proof result: ") <==> symja(ProofTarget(expression)).Value?
  {
    match symja(ProofTarget(expression))
    case Value(text) => "Proof result: " + text
    case Thrown(message) =>
      var r := "Error proving expression: " + MessageOr(message, NoMessage);
      DistinctPrefixes(r, "Error", "Proof result: ");
      r
  }

  // ------------------------------------------------------------ the keyword chain

  /** The arms of the `when` in solveWordProblem, in source order; `Arithmetic` is its `else`. */
  datatype Arm =
    | Permutation | Combination | Factorial | SetUnion | SetIntersection
    | SequenceLimit | SeriesConvergence | Supremum | Infimum
    | AnnulusArea | ApplesBought | Derivative | Integration | Arithmetic

  /** The position of each arm in the chain. */
  function Rank(a: Arm): nat {
    match a
    case Permutation => 0
    case Combination => 1
    case Factorial => 2
    case SetUnion => 3
    case SetIntersection => 4
    case SequenceLimit => 5
    case SeriesConvergence => 6
    case Supremum => 7
    case Infimum => 8
    case AnnulusArea => 9
    case ApplesBought => 10
    case Derivative => 11
    case Integration => 12
    case Arithmetic => 13
  }

  /** `problem.contains(word, ignoreCase = true)`. */
  predicate Says(problem: string, word: string) {
    ContainsIgnoreCase(problem, word)
  }

  /** The keyword test of the chain, for one problem. */
  function Sayer(problem: string): string -> bool {
    word => Says(problem, word)
  }

  /** The condition of each arm, in terms of a keyword test; the `else` arm always applies. */
  predicate AppliesBy(a: Arm, says: string -> bool) {
    match a
    case Permutation => says("permutation")
    case Combination => says("combination")
    case Factorial => says("factorial")
    case SetUnion => says("set") && says("union")
    case SetIntersection => says("set") && says("intersection")
    case SequenceLimit => says("sequence") && says("limit")
    case SeriesConvergence => says("series") && says("converge")
    case Supremum => says("supremum") || says("least upper bound")
    case Infimum => says("infimum") || says("greatest lower bound")
    case AnnulusArea => says("annulus") && says("area")
    case ApplesBought => says("apples") && says("buy")
    case Derivative => says("derivative")
    case Integration => says("integrate")
    case Arithmetic => true
  }

  /** The condition of each arm on a problem. */
  predicate Applies(a: Arm, problem: string) {
    AppliesBy(a, Sayer(problem))
  }

  /**
   * The `when` chain for any keyword test: the arm taken is one whose
   * condition holds, and no earlier arm's condition holds.
   */
  function ChooseBy(says: string -> bool): (a: Arm)
    ensures AppliesBy(a, says)
    ensures forall b :: AppliesBy(b, says) ==> Rank(a) <= Rank(b)
  {
    if says("permutation") then Permutation
    else if says("combination") then Combination
    else if says("factorial") then Factorial
    else if says("set") && says("union") then SetUnion
    else if says("set") && says("intersection") then SetIntersection
    else if says("sequence") && says("limit") then SequenceLimit
    else if says("series") && says("converge") then SeriesConvergence
    else if says("supremum") || says("least upper bound") then Supremum
    else if says("infimum") || says("greatest lower bound") then Infimum
    else if says("annulus") && says("area") then AnnulusArea
    else if says("apples") && says("buy") then ApplesBought
    else if says("derivative") then Derivative
    else if says("integrate") then Integration
    else Arithmetic
  }

  /** The arm solveWordProblem takes, with case-insensitive `contains` as the keyword test. */
  function ChooseArm(problem: string): (a: Arm)
    ensures Applies(a, problem)
    ensures forall b :: Applies(b, problem) ==> Rank(a) <= Rank(b)
  {
    ChooseBy(Sayer(problem))
  }

  /** "permutation" anywhere, in any case, wins over every other keyword. */
  lemma PermutationFirst(problem: string)
    requires Says(problem, "permutation")
    ensures ChooseArm(problem) == Permutation
  {
    assert Applies(Permutation, problem);
  }

  // ------------------------------------------------------------ the operands

  /** Int.MAX_VALUE. */
  const IntMax: nat := 0x7fff_ffff

  /** The message of the NumberFormatException String.toInt() throws for `run`. */
  function NumberFormatMessage(run: string): string {
    "For input string: \"" + run + "\""
  }

  /** The index of the first element above `bound`, if there is one. */
  function FirstAbove(xs: seq<nat>, bound: nat): (r: Option<nat>)
    ensures r.None? <==> forall k :: 0 <= k < |xs| ==> xs[k] <= bound
    ensures r.Some? ==> r.value < |xs| && xs[r.value] > bound
    ensures r.Some? ==> forall k :: 0 <= k < r.value ==> xs[k] <= bound
  {
    if xs == [] then None
    else if xs[0] > bound then Some(0)
    else match FirstAbove(xs[1..], bound)
      case None => None
      case Some(k) => Some(k + 1)
  }

  /**
   * `Regex("\\d+").findAll(problem).map { it.value.toInt() }.toList()`:
   * the values of the digit runs, or, when one of them does not fit an Int,
   * the toInt() failure for the first such run.
   */
  function ParseInts(problem: string): (r: Result<seq<nat>, string>)
    ensures r.Success? <==> forall m :: 0 <= m < |DigitRunValues(problem)| ==> DigitRunValues(problem)[m] <= IntMax
    ensures r.Success? ==> r.value == DigitRunValues(problem)
    ensures r.Failure? ==> exists m :: && 0 <= m < |DigitRuns(problem)|
                                       && DigitRunValues(problem)[m] > IntMax
                                       && (forall k :: 0 <= k < m ==> DigitRunValues(problem)[k] <= IntMax)
                                       && r.error == NumberFormatMessage(DigitRuns(problem)[m])
  {
    var values := DigitRunValues(problem);
    match FirstAbove(values, IntMax)
    case None => Success(values)
    case Some(m) => Failure(NumberFormatMessage(DigitRuns(problem)[m]))
  }

  // ------------------------------------------------------------ the captures

  /** `Regex("sequence\\s+(.+?)\\s+as\\s+n", RegexOption.IGNORE_CASE)`. */
  const SequencePattern := LazyPattern("sequence", true, [Words(["as", "n"])])

  /** `Regex("series\\s+(.+?)(?:\\s+converge|$)", RegexOption.IGNORE_CASE)`. */
  const SeriesPattern := LazyPattern("series", true, [Words(["converge"]), EndOfInput])

  /** `Regex("of\\s+(.+?)\\s+with respect to")`, which is case-sensitive. */
  const DerivativePattern := LazyPattern("of", false, [Words(["with respect to"])])

  /** `Regex("integrate\\s+(.+?)(?:\\s+from|\\s+with|$)", RegexOption.IGNORE_CASE)`. */
  const IntegratePattern := LazyPattern("integrate", true, [Words(["from"]), Words(["with"]), EndOfInput])

  /** `funcMatch?.groupValues[1]?.trim()`: the trimmed capture of the first match, if any. */
  function Captured(problem: string, pat: LazyPattern): (r: Option<string>)
    ensures r.None? <==> forall j, p, e :: !IsMatch(problem, pat, j, p, e)
    ensures Find(problem, pat).Some? ==> r == Some(Trim(GroupText(problem, Find(problem, pat).value)))
  {
    match Find(problem, pat)
    case None => None
    case Some(c) => Some(Trim(GroupText(problem, c)))
  }

  /** `$func` spliced into a template, or the template's placeholder when nothing was captured. */
  function CaptureOr(captured: Option<string>, placeholder: string): string {
    match captured
    case Some(f) => f
    case None => placeholder
  }

  // ------------------------------------------------------------ the synthesis

  /** The words of the final `when`, group by group. */
  const JoinSumWords: seq<string> := ["sum", "total", "add", "plus"]
  const JoinDifferenceWords: seq<string> := ["difference", "subtract"]
  const JoinProductWords: seq<string> := ["product", "multiply"]
  const JoinQuotientWords: seq<string> := ["quotient", "divide"]

  /** The operator the `else` arm joins the numbers with. */
  datatype JoinOperator = JoinPlus | JoinMinus | JoinTimes | JoinOver

  /** The words of one group, as the chain of `contains` calls tests them. */
  lemma GroupMentioned(problem: string, words: seq<string>)
    requires 2 <= |words| <= 4
    ensures MentionsAny(problem, words) <==>
              || Says(problem, words[0]) || Says(problem, words[1])
              || (|words| > 2 && Says(problem, words[2])) || (|words| > 3 && Says(problem, words[3]))
  {
  }

  /**
   * The operator of the `else` arm: the first keyword group the text
   * mentions picks it, and addition is the default.
   */
  function JoinOperatorOf(problem: string): (op: JoinOperator)
    ensures op == JoinMinus <==> !MentionsAny(problem, JoinSumWords) && MentionsAny(problem, JoinDifferenceWords)
    ensures op == JoinTimes <==>
              && !MentionsAny(problem, JoinSumWords) && !MentionsAny(problem, JoinDifferenceWords)
              && MentionsAny(problem, JoinProductWords)
    ensures op == JoinOver <==>
              && !MentionsAny(problem, JoinSumWords) && !MentionsAny(problem, JoinDifferenceWords)
              && !MentionsAny(problem, JoinProductWords) && MentionsAny(problem, JoinQuotientWords)
    ensures op == JoinPlus <==>
              || MentionsAny(problem, JoinSumWords)
              || (&& !MentionsAny(problem, JoinDifferenceWords) && !MentionsAny(problem, JoinProductWords)
                  && !MentionsAny(problem, JoinQuotientWords))
  {
    GroupMentioned(problem, JoinSumWords);
    GroupMentioned(problem, JoinDifferenceWords);
    GroupMentioned(problem, JoinProductWords);
    GroupMentioned(problem, JoinQuotientWords);
    if Says(problem, "sum") || Says(problem, "total") || Says(problem, "add") || Says(problem, "plus") then JoinPlus
    else if Says(problem, "difference") || Says(problem, "subtract") then JoinMinus
    else if Says(problem, "product") || Says(problem, "multiply") then JoinTimes
    else if Says(problem, "quotient") || Says(problem, "divide") then JoinOver
    else JoinPlus
  }

  /** The separator written between the numbers for each operator. */
  function JoinSymbol(op: JoinOperator): (sep: string)
    ensures |sep| == 3 && sep[0] == sep[2] == ' ' && DigitFree(sep)
    ensures op == JoinPlus ==> sep[1] == '+'
    ensures op == JoinMinus ==> sep[1] == '-'
    ensures op == JoinTimes ==> sep[1] == '*'
    ensures op == JoinOver ==> sep[1] == '/'
  {
    match op
    case JoinPlus => " + "
    case JoinMinus => " - "
    case JoinTimes => " * "
    case JoinOver => " / "
  }

  /** The separator of the `else` arm. */
  function JoinSeparator(problem: string): (sep: string)
    ensures |sep| == 3 && sep[0] == sep[2] == ' ' && DigitFree(sep)
    ensures JoinOperatorOf(problem) == JoinPlus ==> sep == " + "
    ensures JoinOperatorOf(problem) == JoinMinus ==> sep == " - "
    ensures JoinOperatorOf(problem) == JoinTimes ==> sep == " * "
    ensures JoinOperatorOf(problem) == JoinOver ==> sep == " / "
  {
    JoinSymbol(JoinOperatorOf(problem))
  }

  /** The arms whose template reads the numbers with toInt(), and so can fail. */
  predicate ReadsNumbers(a: Arm) {
    a == Permutation || a == Combination || a == Factorial || a == ApplesBought || a == Arithmetic
  }

  /** The template of an arm that reads the numbers, given the numbers. */
  function NumberTemplate(a: Arm, problem: string, nums: seq<nat>): string {
    match a
    case Permutation =>
      if |nums| >= 2 then "Permutations[" + DecimalString(nums[0]) + ", " + DecimalString(nums[1]) + "]"
      else "Permutations[n, r]"
    case Combination =>
      if |nums| >= 2 then "Binomial[" + DecimalString(nums[0]) + ", " + DecimalString(nums[1]) + "]"
      else "Binomial[n, r]"
    case Factorial =>
      if |nums| > 0 then DecimalString(nums[0]) + "!" else "n!"
    case ApplesBought =>
      if |nums| >= 2 then DecimalString(nums[0]) + " + " + DecimalString(nums[1]) else "2 + 3"
    case _ =>
      JoinToString(DecimalStrings(nums), JoinSeparator(problem))
  }

  /** The template of an arm that does not read the numbers. */
  function FixedTemplate(a: Arm, problem: string): string {
    match a
    case SetUnion => "Union[A, B]"
    case SetIntersection => "Intersection[A, B]"
    case SequenceLimit =>
      "Limit[" + CaptureOr(Captured(problem, SequencePattern), "a_n") + ", n->Infinity]"
    case SeriesConvergence =>
      "Sum[" + CaptureOr(Captured(problem, SeriesPattern), "a_n") + ", {n, 1, Infinity}]"
    case Supremum => "Max[Set]"
    case Infimum => "Min[Set]"
    case AnnulusArea => "Integrate[2*Pi*rho, {rho, r, R}]"
    case Derivative => "D[" + CaptureOr(Captured(problem, DerivativePattern), "x^2") + ", x]"
    case Integration => "Integrate[" + CaptureOr(Captured(problem, IntegratePattern), "x") + ", x]"
    case _ => "False"
  }

  /**
   * The `symjaExpression` of solveWordProblem, or the message of the
   * NumberFormatException a too-large number raises in an arm that reads
   * the numbers. Only such an arm can fail, and only on such a number.
   * The numbers a template shows are the problem's own: the first two for
   * permutations, combinations and apples, the first for factorials, all of
   * them, in order, for the `else` arm.
   */
  function SymjaExpression(problem: string): (r: Result<string, string>)
    ensures r.Failure? <==> ReadsNumbers(ChooseArm(problem)) && ParseInts(problem).Failure?
    ensures r.Failure? ==> r.error == ParseInts(problem).error
    ensures r.Success? && ParseInts(problem).Success? ==>
              ShowsNumbers(ChooseArm(problem), DigitRunValues(problem), DigitRunValues(r.value))
    ensures ReadsNumbers(ChooseArm(problem)) && ParseInts(problem).Success? ==>
              r == Success(NumberTemplate(ChooseArm(problem), problem, DigitRunValues(problem)))
    ensures !ReadsNumbers(ChooseArm(problem)) ==> r == Success(FixedTemplate(ChooseArm(problem), problem))
  {
    var arm := ChooseArm(problem);
    if ReadsNumbers(arm) then
      match ParseInts(problem)
      case Failure(message) => Failure(message)
      case Success(nums) =>
        var e := NumberTemplate(arm, problem, nums);
        TemplateShowsNumbers(arm, problem, nums);
        Success(e)
    else
      Success(FixedTemplate(arm, problem))
  }

  /** The arms that neither read numbers nor capture build a fixed expression. */
  lemma FixedArmTemplates(problem: string, a: Arm)
    requires a == ChooseArm(problem)
    ensures a == SetUnion ==> SymjaExpression(problem) == Success("Union[A, B]")
    ensures a == SetIntersection ==> SymjaExpression(problem) == Success("Intersection[A, B]")
    ensures a == Supremum ==> SymjaExpression(problem) == Success("Max[Set]")
    ensures a == Infimum ==> SymjaExpression(problem) == Success("Min[Set]")
    ensures a == AnnulusArea ==>
              SymjaExpression(problem) == Success("Integrate[2*Pi*rho, {rho, r, R}]")
  {
    if !ReadsNumbers(a) {
      assert SymjaExpression(problem) == Success(FixedTemplate(a, problem));
    }
  }

  /** The capturing arms splice the trimmed capture into their template, or fall back to a placeholder. */
  lemma CaptureArmTemplates(problem: string, a: Arm)
    requires a == ChooseArm(problem)
    ensures a == SequenceLimit ==>
              SymjaExpression(problem) == Success("Limit[" + CaptureOr(Captured(problem, SequencePattern), "a_n") + ", n->Infinity]")
    ensures a == SeriesConvergence ==>
              SymjaExpression(problem) == Success("Sum[" + CaptureOr(Captured(problem, SeriesPattern), "a_n") + ", {n, 1, Infinity}]")
    ensures a == Derivative ==>
              SymjaExpression(problem) == Success("D[" + CaptureOr(Captured(problem, DerivativePattern), "x^2") + ", x]")
    ensures a == Integration ==>
              SymjaExpression(problem) == Success("Integrate[" + CaptureOr(Captured(problem, IntegratePattern), "x") + ", x]")
  {
    if !ReadsNumbers(a) {
      assert SymjaExpression(problem) == Success(FixedTemplate(a, problem));
    }
  }

  /**
   * The expression built by each arm that reads numbers, once every number
   * fits an Int: the template with the first numbers, or its placeholder
   * when there are too few; the `else` arm joins them all with the
   * operator its keywords pick, and is empty when the problem has no digits.
   */
  lemma NumberArmTemplates(problem: string)
    requires ParseInts(problem).Success?
    ensures ChooseArm(problem) == Permutation && |DigitRunValues(problem)| >= 2 ==>
              SymjaExpression(problem) == Success("Permutations[" + DecimalString(DigitRunValues(problem)[0]) + ", " + DecimalString(DigitRunValues(problem)[1]) + "]")
    ensures ChooseArm(problem) == Permutation && |DigitRunValues(problem)| < 2 ==>
              SymjaExpression(problem) == Success("Permutations[n, r]")
    ensures ChooseArm(problem) == Combination && |DigitRunValues(problem)| >= 2 ==>
              SymjaExpression(problem) == Success("Binomial[" + DecimalString(DigitRunValues(problem)[0]) + ", " + DecimalString(DigitRunValues(problem)[1]) + "]")
    ensures ChooseArm(problem) == Combination && |DigitRunValues(problem)| < 2 ==>
              SymjaExpression(problem) == Success("Binomial[n, r]")
    ensures ChooseArm(problem) == Factorial && |DigitRunValues(problem)| >= 1 ==>
              SymjaExpression(problem) == Success(DecimalString(DigitRunValues(problem)[0]) + "!")
    ensures ChooseArm(problem) == Factorial && DigitRunValues(problem) == [] ==>
              SymjaExpression(problem) == Success("n!")
    ensures ChooseArm(problem) == ApplesBought && |DigitRunValues(problem)| >= 2 ==>
              SymjaExpression(problem) == Success(DecimalString(DigitRunValues(problem)[0]) + " + " + DecimalString(DigitRunValues(problem)[1]))
    ensures ChooseArm(problem) == ApplesBought && |DigitRunValues(problem)| < 2 ==>
              SymjaExpression(problem) == Success("2 + 3")
    ensures ChooseArm(problem) == Arithmetic ==>
              SymjaExpression(problem) == Success(JoinToString(DecimalStrings(DigitRunValues(problem)), JoinSymbol(JoinOperatorOf(problem))))
    ensures ChooseArm(problem) == Arithmetic && DigitRunValues(problem) == [] ==>
              SymjaExpression(problem) == Success("")
  {
  }

  /**
   * What the numbers of a template, read back as `\d+` runs, are in terms of
   * the problem's numbers `nums`: the first two for permutations,
   * combinations and apples (when there are two), the first for factorials
   * (when there is one), all of them for the `else` arm.
   */
  predicate ShowsNumbers(a: Arm, nums: seq<nat>, shown: seq<nat>) {
    && ((a == Permutation || a == Combination || a == ApplesBought) && |nums| >= 2 ==> shown == nums[..2])
    && (a == Factorial && |nums| >= 1 ==> shown == nums[..1])
    && (a == Arithmetic ==> shown == nums)
  }

  /** The numbers a number template shows are the problem's own. */
  lemma TemplateShowsNumbers(a: Arm, problem: string, nums: seq<nat>)
    requires ReadsNumbers(a)
    ensures ShowsNumbers(a, nums, DigitRunValues(NumberTemplate(a, problem, nums)))
  {
    var e := NumberTemplate(a, problem, nums);
    if a == Arithmetic {
      assert e == JoinToString(DecimalStrings(nums), JoinSeparator(problem));
      JoinedNumeralsReadBack(nums, JoinSeparator(problem));
    } else if |nums| >= 2 && a != Factorial {
      if a == Permutation {
        assert DigitFree("Permutations[");
        BracketReadBack("Permutations[", nums[0], nums[1]);
      } else if a == Combination {
        assert DigitFree("Binomial[");
        BracketReadBack("Binomial[", nums[0], nums[1]);
      } else {
        ApplesSumReadBack(nums[0], nums[1]);
      }
      assert nums[..2] == [nums[0], nums[1]];
    } else if a == Factorial && |nums| >= 1 {
      OneNumeral(nums[0], "!");
      assert nums[..1] == [nums[0]];
    }
  }

  /** The numbers of a `Head[x, y]` template, such as `Permutations[x, y]` or `Binomial[x, y]`, are x and y. */
  lemma BracketReadBack(head: string, x: nat, y: nat)
    requires DigitFree(head)
    ensures DigitRunValues(head + DecimalString(x) + ", " + DecimalString(y) + "]") == [x, y]
  {
    TwoNumerals(head, x, ", ", y, "]");
  }

  /** The numbers of an `x + y` template are x and y. */
  lemma ApplesSumReadBack(x: nat, y: nat)
    ensures DigitRunValues(DecimalString(x) + " + " + DecimalString(y)) == [x, y]
  {
    var dx, dy := DecimalString(x), DecimalString(y);
    DecimalStringValue(x);
    DecimalStringValue(y);
    assert dx + " + " + dy == dx + (" + " + dy);
    NumeralThenValues(dx, " + " + dy);
    NonDigitsThenValues(" + ", dy);
    assert dy + [] == dy;
    NumeralThenValues(dy, []);
    NoDigitNoRun([], 0);
  }

  /**
   * What solveWordProblem reports for a synthesis result: Symja's answer
   * behind "Solution: ", or the failure (of toInt() or of Symja) behind
   * "Error solving word problem: ".
   */
  function Report(expression: Result<string, string>, symja: string -> Outcome): (r: string)
    ensures expression.Failure? ==>
              StartsWith(r, "Error solving word problem: ") && r[28..] == expression.error
    ensures expression.Success? ==>
              match symja(expression.value)
              case Value(text) => StartsWith(r, "Solution: ") && r[10..] == text
              case Thrown(message) =>
                StartsWith(r, "Error solving word problem: ") && r[28..] == MessageOr(message, NoMessage)
    ensures StartsWith(r, "Solution: ") <==> expression.Success? && symja(expression.value).Value?
  {
    match expression
    case Failure(message) =>
      var r := "Error solving word problem: " + message;
      DistinctPrefixes(r, "Error", "Solution: ");
      r
    case Success(e) =>
      match symja(e)
      case Value(text) => "Solution: " + text
      case Thrown(message) =>
        var r := "Error solving word problem: " + MessageOr(message, NoMessage);
        DistinctPrefixes(r, "Error", "Solution: ");
        r
  }

  /**
   * solveWordProblem: the synthesized expression is handed to Symja, and
   * the outcome is reported; a "Solution: " reply means both the synthesis
   * and Symja succeeded.
   */
  function SolveWordProblem(problem: string, symja: string -> Outcome): (r: string)
    ensures SymjaExpression(problem).Failure? ==>
              && StartsWith(r, "Error solving word problem: ")
              && r[28..] == SymjaExpression(problem).error
    ensures StartsWith(r, "Solution: ") <==>
              SymjaExpression(problem).Success? && symja(SymjaExpression(problem).value).Value?
    ensures SymjaExpression(problem).Success? && symja(SymjaExpression(problem).value).Value? ==>
              r[10..] == symja(SymjaExpression(problem).value).text
    ensures SymjaExpression(problem).Success? && symja(SymjaExpression(problem).value).Thrown? ==>
              && StartsWith(r, "Error solving word problem: ")
              && r[28..] == MessageOr(symja(SymjaExpression(problem).value).message, NoMessage)
  {
    Report(SymjaExpression(problem), symja)
  }

  // ------------------------------------------------------------ the calculus arm on two inputs

  /**
   * The arm taken is `a` exactly when `a`'s condition holds and no earlier
   * arm's condition does: the `when` chain read backwards.
   */
  lemma ChooseArmExactly(problem: string, a: Arm)
    ensures ChooseArm(problem) == a <==> Applies(a, problem) && forall b :: Rank(b) < Rank(a) ==> !Applies(b, problem)
  {
    var c := ChooseArm(problem);
    if Applies(a, problem) && forall b :: Rank(b) < Rank(a) ==> !Applies(b, problem) {
      assert Rank(c) == Rank(a);
    }
  }

  /** The letters of the word "derivative". */
  const DerivativeLetters: set<char> := {'d', 'e', 'r', 'i', 'v', 'a', 't'}

  /** A problem written only with the letters of "derivative" does not say a word holding another letter. */
  lemma LacksLetter(problem: string, w: string, k: nat)
    requires forall c :: c in Lower(problem) ==> c in DerivativeLetters
    requires k < |w| && LowerChar(w[k]) !in DerivativeLetters
    ensures !Says(problem, w)
  {
    MissingCharNoMatch(problem, w, k);
  }

  /**
   * A problem written only with the letters of "derivative", in any case,
   * meets the condition of no arm before the derivative arm.
   */
  lemma DerivativeLettersPassEarlierArms(problem: string)
    requires forall c :: c in Lower(problem) ==> c in DerivativeLetters
    ensures forall b :: Rank(b) < Rank(Derivative) ==> !Applies(b, problem)
  {
    LacksLetter(problem, "permutation", 0);
    LacksLetter(problem, "combination", 0);
    LacksLetter(problem, "factorial", 0);
    LacksLetter(problem, "set", 0);
    LacksLetter(problem, "sequence", 0);
    LacksLetter(problem, "series", 0);
    LacksLetter(problem, "supremum", 0);
    LacksLetter(problem, "least upper bound", 0);
    LacksLetter(problem, "infimum", 1);
    LacksLetter(problem, "greatest lower bound", 0);
    LacksLetter(problem, "annulus", 1);
    LacksLetter(problem, "apples", 1);
  }

  /** The bare word "derivative" says its own keyword. */
  lemma BareDerivativeSaysDerivative()
    ensures Says("derivative", "derivative")
  {
    var s := "derivative";
    LowerOfLowerCase(s);
    OccurrenceContained(s, "derivative", 0);
  }

  /** No keyword of an earlier arm occurs in the bare word "derivative". */
  lemma BareDerivativeArm()
    ensures ChooseArm("derivative") == Derivative
  {
    var s := "derivative";
    LowerOfLowerCase(s);
    DerivativeLettersPassEarlierArms(s);
    BareDerivativeSaysDerivative();
    ChooseArmExactly(s, Derivative);
  }

  /** "derivative" has no "of", so the derivative pattern captures nothing. */
  lemma BareDerivativeNoCapture()
    ensures Captured("derivative", DerivativePattern) == None
  {
    var s := "derivative";
    assert DerivativePattern.lead[0] == 'o';
    LowerOfLowerCase(s);
    NoLeadNoMatch(s, DerivativePattern, 0);
  }

  /** With nothing captured, the derivative template falls back to x^2. */
  lemma DerivativeFallbackWhen(problem: string)
    requires Captured(problem, DerivativePattern) == None
    ensures FixedTemplate(Derivative, problem) == "D[x^2, x]"
  {
    assert CaptureOr(None, "x^2") == "x^2";
  }

  /** The bare word "derivative" takes the x^2 fallback of the derivative template. */
  lemma BareDerivativeFallback()
    ensures FixedTemplate(Derivative, "derivative") == "D[x^2, x]"
  {
    BareDerivativeNoCapture();
    DerivativeFallbackWhen("derivative");
  }

  /** The bare word "derivative" is sent to Symja as the derivative of x^2. */
  lemma BareDerivativeTemplate()
    ensures SymjaExpression("derivative") == Success("D[x^2, x]")
  {
    BareDerivativeArm();
    BareDerivativeFallback();
  }
}
