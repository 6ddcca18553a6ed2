/**
 * The iOS evaluator: expressions and proofs are refused with fixed texts;
 * word problems use the shared keyword arithmetic.
 */
module IosMathEvaluator {
  const ExpressionUnsupported := "Not supported on this platform"
  const ProofUnsupported := "Proof solving is not supported on this platform."

  /** evaluateExpression: the same refusal for every expression. */
  function EvaluateExpression(expression: string): (r: string)
    ensures r == ExpressionUnsupported
  {
    ExpressionUnsupported
  }

  /** proveExpression: the same refusal for every request. */
  function ProveExpression(expression: string): (r: string)
    ensures r == ProofUnsupported
  {
    ProofUnsupported
  }
}

/**
 * The iOS side of the solver configuration: the network is never reported
 * reachable, so every problem is solved on the device, and the online
 * placeholder falls back to the word-problem solver.
 */
module IosSolverConfig {
  import opened Text
  import SC = SolverConfig
  import KeywordArithmetic

  /** isNetworkAvailable: no detection is attempted; the answer is always false. */
  function IsNetworkAvailable(): (r: bool)
    ensures !r
  {
    false
  }

  /** detectBestSolverMode: with the network never reachable, every category is offline. */
  function DetectBestSolverMode(c: SC.ProblemComplexity): (m: SC.SolverMode)
    ensures m == SC.OFFLINE
  {
    SC.DetectBestSolverMode(c, IsNetworkAvailable())
  }

  /**
   * solveOnline: the placeholder text, whose last line carries the answer
   * of solveWordProblem (not of evaluateExpression). The configuration is
   * not consulted.
   */
  function SolveOnline(problem: string, config: SC.SolverConfig, render: real -> string): (r: string)
    ensures StartsWith(r, SC.OnlineHeader + "\n")
    ensures var lines := Split(r, '\n');
            |lines| >= 2 && lines[..2] == [SC.OnlineHeader, "Problem detected: " + SC.ComplexityName(SC.ClassifyProblem(problem))]
    ensures |Split(r, '\n')| >= 3
    ensures Split(r, '\n')[2..] == Split("Falling back to offline mode: " + KeywordArithmetic.SolveWordProblem(problem, render), '\n')
    ensures '\n' !in render(KeywordArithmetic.Answer(problem)) ==>
              Split(r, '\n') == [SC.OnlineHeader,
                                 "Problem detected: " + SC.ComplexityName(SC.ClassifyProblem(problem)),
                                 "Falling back to offline mode: " + "Solution: " + render(KeywordArithmetic.Answer(problem))]
  {
    PlaceholderWithSolution(problem, render);
    SC.PlaceholderLeadingLines(problem, KeywordArithmetic.SolveWordProblem(problem, render));
    SC.OnlinePlaceholder(problem, KeywordArithmetic.SolveWordProblem(problem, render))
  }

  /** The placeholder shape, with the word-problem reply as the offline answer. */
  lemma PlaceholderWithSolution(problem: string, render: real -> string)
    ensures var r := SC.OnlinePlaceholder(problem, KeywordArithmetic.SolveWordProblem(problem, render));
            && StartsWith(r, SC.OnlineHeader + "\n")
            && ('\n' !in render(KeywordArithmetic.Answer(problem)) ==>
                  Split(r, '\n') == [SC.OnlineHeader,
                                     "Problem detected: " + SC.ComplexityName(SC.ClassifyProblem(problem)),
                                     "Falling back to offline mode: " + "Solution: " + render(KeywordArithmetic.Answer(problem))])
  {
    var rendered := render(KeywordArithmetic.Answer(problem));
    var fallback := KeywordArithmetic.SolveWordProblem(problem, render);
    assert fallback == "Solution: " + rendered;
    KeywordArithmetic.SolutionIsOneLine(rendered);
    var lead := "Falling back to offline mode: ";
    assert lead + fallback == lead + "Solution: " + rendered;
    SC.PlaceholderShape(problem, fallback);
  }

  /** The configuration plays no part in the online placeholder. */
  lemma SolveOnlineIgnoresConfig(problem: string, c1: SC.SolverConfig, c2: SC.SolverConfig, render: real -> string)
    ensures SolveOnline(problem, c1, render) == SolveOnline(problem, c2, render)
  {
  }
}
