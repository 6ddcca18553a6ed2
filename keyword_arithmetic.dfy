/**
 * The keyword arithmetic solver that the Android, iOS and Web targets share
 * word for word: pick an operation by keyword group, in a fixed priority,
 * and apply it to the numbers found in the text (`\d+` runs, left to
 * right).
 */
module KeywordArithmetic {
  import opened Text

  /** The branch of the `when`; `Unmatched` is its `else`. */
  datatype Operation = Add | Subtract | Multiply | Divide | Unmatched

  const SumWords: seq<string> := ["sum", "total", "add", "plus", "more"]
  const DifferenceWords: seq<string> := ["difference", "subtract", "less"]
  const ProductWords: seq<string> := ["product", "multiply", "times"]
  const QuotientWords: seq<string> := ["quotient", "divide"]

  /**
   * The keyword groups are tried in the order sum, difference, product,
   * quotient; the first group with a word in the text decides.
   */
  function ChooseOperation(problem: string): (op: Operation)
    ensures op == Add <==> MentionsAny(problem, SumWords)
    ensures op == Subtract <==> !MentionsAny(problem, SumWords) && MentionsAny(problem, DifferenceWords)
    ensures op == Multiply <==>
              && !MentionsAny(problem, SumWords) && !MentionsAny(problem, DifferenceWords)
              && MentionsAny(problem, ProductWords)
    ensures op == Divide <==>
              && !MentionsAny(problem, SumWords) && !MentionsAny(problem, DifferenceWords)
              && !MentionsAny(problem, ProductWords) && MentionsAny(problem, QuotientWords)
  {
    if MentionsAny(problem, SumWords) then Add
    else if MentionsAny(problem, DifferenceWords) then Subtract
    else if MentionsAny(problem, ProductWords) then Multiply
    else if MentionsAny(problem, QuotientWords) then Divide
    else Unmatched
  }

  /** Text that says both "more" and "less" is summed: the sum group comes first. */
  lemma MoreBeatsLess(problem: string)
    requires ContainsIgnoreCase(problem, "more") && ContainsIgnoreCase(problem, "less")
    ensures ChooseOperation(problem) == Add
  {
    assert SumWords[4] == "more";
  }

  // ------------------------------------------------------------ reference sums

  /** The sum of a list, element by element from the front. */
  function Total(xs: seq<nat>): nat {
    if xs == [] then 0 else xs[0] + Total(xs[1..])
  }

  /** The product of a list, element by element from the front. */
  function Product(xs: seq<nat>): nat {
    if xs == [] then 1 else xs[0] * Product(xs[1..])
  }

  /** A sum of naturals is at least each of its terms. */
  lemma {:induction false} TotalBoundsEach(xs: seq<nat>, k: nat)
    requires k < |xs|
    ensures xs[k] <= Total(xs)
  {
    if k > 0 {
      TotalBoundsEach(xs[1..], k - 1);
    }
  }

  /** A product is zero exactly when some factor is zero. */
  lemma {:induction false} ProductZeroIff(xs: seq<nat>)
    ensures Product(xs) == 0 <==> exists k :: 0 <= k < |xs| && xs[k] == 0
  {
    if xs != [] {
      ProductZeroIff(xs[1..]);
      if Product(xs[1..]) == 0 {
        var k :| 0 <= k < |xs[1..]| && xs[1..][k] == 0;
        assert xs[k + 1] == 0;
      }
      if exists k :: 0 <= k < |xs| && xs[k] == 0 {
        var k :| 0 <= k < |xs| && xs[k] == 0;
        if k > 0 {
          assert xs[1..][k - 1] == 0;
        }
      }
    }
  }

  // ------------------------------------------------------------ Kotlin folds

  /** `List<Double>.sum()`: a running total from the left. */
  function SumFrom(acc: int, xs: seq<nat>): (r: int)
    ensures r == acc + Total(xs)
    decreases |xs|
  {
    if xs == [] then acc else SumFrom(acc + xs[0], xs[1..])
  }

  /** `fold(acc) { acc, n -> acc * n }`: a running product from the left. */
  function FoldProduct(acc: int, xs: seq<nat>): (r: int)
    ensures r == acc * Product(xs)
    decreases |xs|
  {
    if xs == [] then acc
    else
      var r := FoldProduct(acc * xs[0], xs[1..]);
      assert r == acc * (xs[0] * Product(xs[1..]));
      r
  }

  /**
   * The value of each branch on the operands `nums`. Sum and the default
   * add everything; difference is the first operand minus the rest and 0
   * with fewer than two; product multiplies from 1; quotient divides the
   * first operand by the second and is 0 with fewer than two operands or
   * a zero second operand.
   */
  function Apply(op: Operation, nums: seq<nat>): (r: real)
    ensures op == Add || op == Unmatched ==> r == Total(nums) as real
    ensures op == Subtract ==>
              if |nums| >= 2 then r == (nums[0] - Total(nums[1..])) as real else r == 0.0
    ensures op == Multiply ==> r == Product(nums) as real
    ensures op == Multiply ==> (r == 0.0 <==> exists k :: 0 <= k < |nums| && nums[k] == 0)
    ensures op == Divide && |nums| >= 2 && nums[1] != 0 ==> r * nums[1] as real == nums[0] as real
    ensures op == Divide && (|nums| < 2 || nums[1] == 0) ==> r == 0.0
  {
    match op
    case Add => SumFrom(0, nums) as real
    case Subtract => if |nums| >= 2 then (nums[0] - SumFrom(0, nums[1..])) as real else 0.0
    case Multiply => ProductZeroIff(nums); FoldProduct(1, nums) as real
    case Divide => if |nums| >= 2 && nums[1] != 0 then nums[0] as real / nums[1] as real else 0.0
    case Unmatched => SumFrom(0, nums) as real
  }

  /** The operands: the values of the `\d+` runs, left to right. */
  function Operands(problem: string): (nums: seq<nat>)
    ensures |nums| == |DigitSpans(problem)|
    ensures forall m :: 0 <= m < |nums| ==> nums[m] == DigitsValue(DigitRuns(problem)[m])
  {
    DigitRunValues(problem)
  }

  /**
   * The number solveWordProblem reports on the three keyword platforms:
   * the first keyword group the problem mentions decides what is done with
   * the numbers it holds, and with no group mentioned they are summed.
   */
  function Answer(problem: string): (r: real)
    ensures ChooseOperation(problem) == Add ==> r == Total(Operands(problem)) as real
    ensures ChooseOperation(problem) == Subtract ==>
              if |Operands(problem)| >= 2 then r == (Operands(problem)[0] - Total(Operands(problem)[1..])) as real
              else r == 0.0
    ensures ChooseOperation(problem) == Multiply ==> r == Product(Operands(problem)) as real
    ensures ChooseOperation(problem) == Divide ==>
              if |Operands(problem)| >= 2 && Operands(problem)[1] != 0
              then r == Operands(problem)[0] as real / Operands(problem)[1] as real
              else r == 0.0
    ensures ChooseOperation(problem) == Unmatched ==> r == Total(Operands(problem)) as real
  {
    Apply(ChooseOperation(problem), Operands(problem))
  }

  /** solveWordProblem on Android, iOS and Web, with Double.toString as `render`. */
  function SolveWordProblem(problem: string, render: real -> string): (r: string)
    ensures |r| >= 10 && r[..10] == "Solution: "
    ensures r[10..] == render(Answer(problem))
  {
    "Solution: " + render(Answer(problem))
  }

  /** The reply is a single line whenever the rendered number is. */
  lemma SolutionIsOneLine(rendered: string)
    ensures '\n' !in rendered ==> '\n' !in "Solution: " + rendered
  {
    var lead := "Solution: ";
    assert forall k :: 0 <= k < |lead| ==> lead[k] != '\n';
  }

  /** "I have 2 apples and buy 3 more", written around its two numerals. */
  const ApplesProblem := "I have " + "2" + " apples and buy " + "3" + " more"

  /** The operands of the apples sentence are 2 and 3, read left to right. */
  lemma ApplesOperands()
    ensures Operands(ApplesProblem) == [2, 3]
  {
    var before, between, after := "I have ", " apples and buy ", " more";
    assert DecimalString(2) == "2" && DecimalString(3) == "3";
    assert DigitFree(before) && DigitFree(between) && DigitFree(after);
    TwoNumerals(before, 2, between, 3, after);
  }

  /** "more" selects the sum, so the apples sentence is answered with 5. */
  lemma ApplesAnswer()
    ensures Answer(ApplesProblem) == 5.0
  {
    var s := ApplesProblem;
    ApplesOperands();
    assert Lower(s)[26..30] == "more";
    LowerOfLowerCase("more");
    OccurrenceContained(s, SumWords[4], 26);
    assert Total([2, 3]) == 5;
  }
}
