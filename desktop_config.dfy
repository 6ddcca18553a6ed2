/**
 * The desktop side of the solver configuration. Reachability comes from a
 * ping subprocess, given here as the parameter `reachable`; the online
 * solver is a placeholder that reports the desktop evaluator's answer.
 */
module DesktopSolverConfig {
  import opened Text
  import opened ForeignEval
  import SC = SolverConfig
  import DesktopMathEvaluator

  /** detectBestSolverMode: remote solving for the hard categories, and only when the ping succeeds. */
  function DetectBestSolverMode(c: SC.ProblemComplexity, reachable: bool): (m: SC.SolverMode)
    ensures m == SC.ONLINE <==> reachable && SC.IsHard(c)
    ensures c == SC.SIMPLE_ARITHMETIC || c == SC.WORD_PROBLEM ==> m == SC.OFFLINE
    ensures !reachable ==> m == SC.OFFLINE
  {
    SC.DetectBestSolverMode(c, reachable)
  }

  /**
   * solveOnline: the placeholder text, whose last line carries the desktop
   * evaluateExpression answer for the problem. The configuration is not
   * consulted, and when that answer is a single line the text reads as
   * exactly three lines.
   */
  function SolveOnline(problem: string, config: SC.SolverConfig, symja: string -> Outcome): (r: string)
    ensures StartsWith(r, SC.OnlineHeader + "\n")
    ensures var lines := Split(r, '\n');
            |lines| >= 2 && lines[..2] == [SC.OnlineHeader, "Problem detected: " + SC.ComplexityName(SC.ClassifyProblem(problem))]
    ensures |Split(r, '\n')| >= 3
    ensures Split(r, '\n')[2..] == Split("Falling back to offline mode: " + DesktopMathEvaluator.EvaluateExpression(problem, symja), '\n')
    ensures var fallback := DesktopMathEvaluator.EvaluateExpression(problem, symja);
            '\n' !in fallback ==>
              Split(r, '\n') == [SC.OnlineHeader,
                                 "Problem detected: " + SC.ComplexityName(SC.ClassifyProblem(problem)),
                                 "Falling back to offline mode: " + fallback]
  {
    var fallback := DesktopMathEvaluator.EvaluateExpression(problem, symja);
    SC.PlaceholderShape(problem, fallback);
    SC.PlaceholderLeadingLines(problem, fallback);
    SC.OnlinePlaceholder(problem, fallback)
  }

  /** The configuration plays no part in the online placeholder. */
  lemma SolveOnlineIgnoresConfig(problem: string, c1: SC.SolverConfig, c2: SC.SolverConfig, symja: string -> Outcome)
    ensures SolveOnline(problem, c1, symja) == SolveOnline(problem, c2, symja)
  {
  }
}
