/**
 * The Android evaluator. Expressions go to exp4j, given here as the
 * parameter `exp4j`, after spaces are removed and a pre-check has found at
 * least one arithmetic character; proofs are not supported; word problems
 * use the shared keyword arithmetic.
 */
module AndroidMathEvaluator {
  import opened Text
  import opened ForeignEval

  /** `replace(" ", "")`: every space character removed. */
  function RemoveSpaces(s: string): (r: string)
    ensures ' ' !in r
    ensures |r| <= |s|
  {
    if s == [] then []
    else if s[0] == ' ' then RemoveSpaces(s[1..])
    else [s[0]] + RemoveSpaces(s[1..])
  }

  /** Only spaces go: every other character is kept, as often as it occurs. */
  lemma {:induction false} RemoveSpacesKeepsOthers(s: string)
    ensures multiset(RemoveSpaces(s)) == multiset(s)[' ' := 0]
  {
    if s != [] {
      RemoveSpacesKeepsOthers(s[1..]);
      assert s == [s[0]] + s[1..];
    }
  }

  /** Removing spaces distributes over concatenation, so the order of the kept characters is preserved. */
  lemma {:induction false} RemoveSpacesAppend(a: string, b: string)
    ensures RemoveSpaces(a + b) == RemoveSpaces(a) + RemoveSpaces(b)
  {
    if a == [] {
      assert a + b == b;
    } else {
      assert (a + b)[0] == a[0];
      assert (a + b)[1..] == a[1..] + b;
      RemoveSpacesAppend(a[1..], b);
    }
  }

  /** A text without spaces is left as it is. */
  lemma {:induction false} RemoveSpacesKeeps(s: string)
    requires ' ' !in s
    ensures RemoveSpaces(s) == s
  {
    if s != [] {
      assert ' ' !in s[1..];
      RemoveSpacesKeeps(s[1..]);
    }
  }

  const SupportedOperators: set<char> := {'+', '-', '*', '/', '^', '%'}

  /** The characters the pre-check looks for: an operator, a digit, a point or a parenthesis. */
  predicate IsSupportedChar(c: char) {
    c in SupportedOperators || IsDigit(c) || c == '.' || c == '(' || c == ')'
  }

  /** `isValidExpression`: `any`, so one supported character anywhere is enough. */
  function IsValidExpression(clean: string): (r: bool)
    ensures r <==> exists k :: 0 <= k < |clean| && IsSupportedChar(clean[k])
  {
    if clean == [] then false
    else
      var rest := IsValidExpression(clean[1..]);
      assert rest ==> exists k :: 0 < k < |clean| && IsSupportedChar(clean[k]) by {
        if rest {
          var k :| 0 <= k < |clean[1..]| && IsSupportedChar(clean[1..][k]);
          assert IsSupportedChar(clean[k + 1]);
        }
      }
      IsSupportedChar(clean[0]) || rest
  }

  /** The pre-check gives the same answer on the original text: a space is never a supported character. */
  lemma {:induction false} ValidityIgnoresSpaces(expression: string)
    ensures IsValidExpression(RemoveSpaces(expression)) == IsValidExpression(expression)
  {
    if expression != [] {
      var c, rest := expression[0], expression[1..];
      ValidityIgnoresSpaces(rest);
      assert IsValidExpression(expression) == (IsSupportedChar(c) || IsValidExpression(rest));
      if c == ' ' {
        assert RemoveSpaces(expression) == RemoveSpaces(rest);
      } else {
        var r := RemoveSpaces(expression);
        assert r == [c] + RemoveSpaces(rest);
        assert r[1..] == RemoveSpaces(rest);
        assert IsValidExpression(r) == (IsSupportedChar(c) || IsValidExpression(r[1..]));
      }
    }
  }

  const UnsupportedMessage := "Error: Only basic arithmetic operations and numbers are supported for now."

  /** The text reported for an exception without a message. */
  const InvalidExpression := "Invalid expression"

  /** What becomes of exp4j's outcome: the rendered number, or the exception's message behind "Error: ". */
  function Reported(outcome: Outcome): (r: string)
    ensures outcome.Value? ==> r == outcome.text
    ensures outcome.Thrown? ==> StartsWith(r, "Error: ") && r[7..] == MessageOr(outcome.message, InvalidExpression)
  {
    match outcome
    case Value(text) => text
    case Thrown(message) => "Error: " + MessageOr(message, InvalidExpression)
  }

  /**
   * evaluateExpression: the fixed refusal exactly when the text holds no
   * supported character at all; otherwise exp4j is given the text with its
   * spaces removed, and its outcome is reported.
   */
  function EvaluateExpression(expression: string, exp4j: string -> Outcome): (r: string)
    ensures (forall k :: 0 <= k < |expression| ==> !IsSupportedChar(expression[k])) ==> r == UnsupportedMessage
    ensures (exists k :: 0 <= k < |expression| && IsSupportedChar(expression[k])) ==>
              r == Reported(exp4j(RemoveSpaces(expression)))
  {
    var clean := RemoveSpaces(expression);
    ValidityIgnoresSpaces(expression);
    if !IsValidExpression(clean) then UnsupportedMessage
    else Reported(exp4j(clean))
  }

  /** Any one supported character lets the text through, so "sin(1)" reaches exp4j untouched. */
  lemma SineReachesExp4j(exp4j: string -> Outcome)
    ensures EvaluateExpression("sin(1)", exp4j) == Reported(exp4j("sin(1)"))
  {
    var s := "sin(1)";
    assert IsSupportedChar(s[3]);
    RemoveSpacesKeeps(s);
  }

  /** Spaces around an operator are dropped and nothing else changes. */
  lemma SpacedOperator(x: string, op: char, y: string)
    requires ' ' !in x && ' ' !in y && op != ' '
    ensures RemoveSpaces(x + [' ', op, ' '] + y) == x + [op] + y
  {
    RemoveSpacesAppend(x + [' ', op, ' '], y);
    RemoveSpacesAppend(x, [' ', op, ' ']);
    RemoveSpacesKeeps(x);
    RemoveSpacesKeeps(y);
    var t := [' ', op, ' '];
    assert t[1..][1..][1..] == [];
    assert RemoveSpaces(t[1..][1..]) == [];
    assert RemoveSpaces(t[1..]) == [op];
  }

  /** Spaces never reach exp4j: "1 + 2" is evaluated as "1+2". */
  lemma SpacedSumReachesExp4jCompact(exp4j: string -> Outcome)
    ensures EvaluateExpression("1 + 2", exp4j) == Reported(exp4j("1+2"))
  {
    var s := "1 + 2";
    assert IsSupportedChar(s[0]);
    assert s == "1" + [' ', '+', ' '] + "2";
    SpacedOperator("1", '+', "2");
    assert "1" + ['+'] + "2" == "1+2";
  }

  const ProofUnsupported := "Proof solving is not supported on this platform."

  /** proveExpression: the same refusal for every request. */
  function ProveExpression(expression: string): (r: string)
    ensures r == ProofUnsupported
  {
    ProofUnsupported
  }
}

/**
 * The Android side of the solver configuration. The module-level
 * `appContext` variable is the one field of an `AndroidRuntime` object;
 * the Android system services it leads to are given as plain values.
 */
module AndroidSolverConfig {
  import opened Wrappers
  import opened Text
  import opened ForeignEval
  import SC = SolverConfig
  import AndroidMathEvaluator

  /** The part of a network's capabilities the probe asks about. */
  datatype NetworkCapabilities = NetworkCapabilities(internet: bool)

  /** A network handle. */
  type Network = nat

  /** The connectivity service: the active network, if any, and the capabilities it reports per network. */
  datatype ConnectivityManager = ConnectivityManager(activeNetwork: Option<Network>,
                                                     capabilities: map<Network, NetworkCapabilities>)

  /** An application context; its connectivity service may be missing or of another type. */
  datatype Context = Context(connectivityService: Option<ConnectivityManager>)

  /**
   * The probe once a context is at hand: every missing step (no connectivity
   * service, no active network, no capabilities for it) answers false, and
   * otherwise the internet capability decides.
   */
  function ContextReachable(context: Context): (r: bool)
    ensures context.connectivityService == None ==> !r
    ensures context.connectivityService.Some? && context.connectivityService.value.activeNetwork == None ==> !r
    ensures r <==> && context.connectivityService.Some?
                   && context.connectivityService.value.activeNetwork.Some?
                   && var cm := context.connectivityService.value;
                      cm.activeNetwork.value in cm.capabilities && cm.capabilities[cm.activeNetwork.value].internet
  {
    match context.connectivityService
    case None => false
    case Some(cm) =>
      match cm.activeNetwork
      case None => false
      case Some(network) =>
        if network !in cm.capabilities then false
        else cm.capabilities[network].internet
  }

  /** The process-wide state of the Android configuration file. */
  class AndroidRuntime {
    /** The context stored by initializeContext; null until then. */
    var appContext: Option<Context>

    /** At start-up no context has been stored. */
    constructor()
      ensures appContext == None
    {
      appContext := None;
    }

    /** initializeContext: store the context, replacing any earlier one. */
    method InitializeContext(context: Context)
      modifies this
      ensures appContext == Some(context)
    {
      appContext := Some(context);
    }

    /** isNetworkAvailable: false without a stored context, otherwise the context's answer. */
    function IsNetworkAvailable(): (r: bool)
      reads this
      ensures appContext == None ==> !r
      ensures appContext.Some? ==> (r <==> ContextReachable(appContext.value))
    {
      match appContext
      case None => false
      case Some(context) => ContextReachable(context)
    }

    /** detectBestSolverMode: the shared decision table applied to this runtime's reachability. */
    function DetectBestSolverMode(c: SC.ProblemComplexity): (m: SC.SolverMode)
      reads this
      ensures m == SC.ONLINE <==> IsNetworkAvailable() && SC.IsHard(c)
      ensures appContext == None ==> m == SC.OFFLINE
    {
      SC.DetectBestSolverMode(c, IsNetworkAvailable())
    }
  }

  /** Before initializeContext has run, every category is solved offline. */
  method FreshRuntimeMode(c: SC.ProblemComplexity) returns (m: SC.SolverMode)
    ensures m == SC.OFFLINE
  {
    var runtime := new AndroidRuntime();
    m := runtime.DetectBestSolverMode(c);
  }

  /** After initializeContext, the mode follows the stored context's reachability and the category. */
  method InitializedRuntimeMode(context: Context, c: SC.ProblemComplexity) returns (m: SC.SolverMode)
    ensures m == SC.ONLINE <==> ContextReachable(context) && SC.IsHard(c)
  {
    var runtime := new AndroidRuntime();
    runtime.InitializeContext(context);
    m := runtime.DetectBestSolverMode(c);
  }

  /**
   * solveOnline: the placeholder text, whose last line carries the Android
   * evaluateExpression answer. The configuration is not consulted.
   */
  function SolveOnline(problem: string, config: SC.SolverConfig, exp4j: string -> Outcome): (r: string)
    ensures StartsWith(r, SC.OnlineHeader + "\n")
    ensures var lines := Split(r, '\n');
            |lines| >= 2 && lines[..2] == [SC.OnlineHeader, "Problem detected: " + SC.ComplexityName(SC.ClassifyProblem(problem))]
    ensures |Split(r, '\n')| >= 3
    ensures Split(r, '\n')[2..] == Split("Falling back to offline mode: " + AndroidMathEvaluator.EvaluateExpression(problem, exp4j), '\n')
    ensures var fallback := AndroidMathEvaluator.EvaluateExpression(problem, exp4j);
            '\n' !in fallback ==>
              Split(r, '\n') == [SC.OnlineHeader,
                                 "Problem detected: " + SC.ComplexityName(SC.ClassifyProblem(problem)),
                                 "Falling back to offline mode: " + fallback]
  {
    var fallback := AndroidMathEvaluator.EvaluateExpression(problem, exp4j);
    SC.PlaceholderShape(problem, fallback);
    SC.PlaceholderLeadingLines(problem, fallback);
    SC.OnlinePlaceholder(problem, fallback)
  }

  /** The configuration plays no part in the online placeholder. */
  lemma SolveOnlineIgnoresConfig(problem: string, c1: SC.SolverConfig, c2: SC.SolverConfig, exp4j: string -> Outcome)
    ensures SolveOnline(problem, c1, exp4j) == SolveOnline(problem, c2, exp4j)
  {
  }
}
