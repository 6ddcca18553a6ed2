# math-solver-app: a verified model of the solver core

The app answers math questions on four targets: Desktop (JVM), Android, iOS and Web (Wasm). The shared solver core is
a set of Kotlin files. This project models that core in Dafny:

- **the common configuration**: the `SolverConfig` record, the `SolverMode` and `ProblemComplexity` enums, the keyword
  classifier `classifyProblem`, and the decision `detectBestSolverMode`, which is repeated identically on every target;
- **each target's `MathEvaluator`**: `evaluateExpression`, `proveExpression` and `solveWordProblem`. Web also has
  `getPlatformName`;
- **each target's `SolverConfig` actuals**: `detectBestSolverMode`, the placeholder `solveOnline` and
  `isNetworkAvailable`. On Android these include `initializeContext` and the stored `appContext`.

Modules follow the source files:

| module | source |
|---|---|
| `SolverConfig` | `commonMain/kotlin/SolverConfig.kt`, plus the placeholder text all targets share |
| `DesktopMathEvaluator`, `DesktopSolverConfig` | the desktop files |
| `AndroidMathEvaluator`, `AndroidSolverConfig` | the Android files |
| `IosMathEvaluator`, `IosSolverConfig` | the iOS files |
| `WebMathEvaluator`, `WebSolverConfig` | the Wasm files |

Four supporting modules describe the Kotlin library behaviour the core relies on:

- `Text`:
  - `contains(ignoreCase = true)`;
  - `split(" ")`;
  - `trim()`;
  - the `\d+` scan;
  - `Int.toString`.
- `LazyRegex`: `Regex.find` for the desktop capture patterns of the form `lead\s+(.+?)(stop|...)`.
- `KeywordArithmetic`: the keyword solver that Android, iOS and Web share word for word.
- `Wrappers` and `ForeignEval`: `Option`, `Result`, and the outcome of a call into Symja or exp4j.

Code outside the model becomes parameters:

- Symja's `ExprEvaluator.eval(...).toString()` is a parameter `symja: string -> Outcome`. An `Outcome` is either a
  value's text or a thrown exception with an optional message.
- exp4j's `ExpressionBuilder(...).build().evaluate().toString()` is a parameter `exp4j` of the same kind.
- `Double.toString` is a parameter `render: real -> string`.
- Reachability is:
  - a `bool` parameter on Desktop, where it stands for the `ping` probe;
  - a `Context` value on Android;
  - constant `false` on iOS;
  - constant `true` on Web.
- Android's module-level `var appContext` is the field of a class `AndroidRuntime`.

## Model

| member | source | states |
|---|---|---|
| SolverConfig.DefaultConfig | shared/src/commonMain/kotlin/SolverConfig.kt:5-9 | a configuration built with no arguments is OFFLINE with an empty endpoint and key |
| SolverConfig.ComplexityName | shared/src/commonMain/kotlin/SolverConfig.kt:22-28 | a template prints each category as its enum constant's own name ("SIMPLE_ARITHMETIC", "WORD_PROBLEM", "DISCRETE_MATH", "REAL_ANALYSIS", "SYMBOLIC_COMPUTATION") |
| SolverConfig.ComplexityNameIdentifies | shared/src/commonMain/kotlin/SolverConfig.kt:22-28 | two categories print the same name exactly when they are the same category |
| SolverConfig.ClassifyProblem | shared/src/commonMain/kotlin/SolverConfig.kt:33-56 | each category is chosen exactly when its rule holds and no earlier rule does: discrete, then analysis, then symbolic keywords (ignoring case), then the word rule, then the arithmetic character class; a SIMPLE_ARITHMETIC input is non-empty and uses only digits, `+-*/().` and whitespace |
| SolverConfig.EmptyIsWordProblem | shared/src/commonMain/kotlin/SolverConfig.kt:52-55 | the empty input fails `matches` (the class needs one character) and falls to the else branch, WORD_PROBLEM |
| SolverConfig.WordRuleCountsSpaces | shared/src/commonMain/kotlin/SolverConfig.kt:48 | `split(" ").size > 5` holds exactly when the text has at least five spaces, and the word rule also needs a digit |
| SolverConfig.LimitOfPermutationIsDiscrete | shared/src/commonMain/kotlin/SolverConfig.kt:36-41 | text with both an analysis and a discrete keyword is DISCRETE_MATH: the discrete rule is tried first |
| SolverConfig.DiscreteWins | shared/src/commonMain/kotlin/SolverConfig.kt:36-37 | any text mentioning "permutation" in any case is DISCRETE_MATH |
| SolverConfig.LetterFreeMentionsNone | shared/src/commonMain/kotlin/SolverConfig.kt:36-45 | text without letters matches none of the three keyword groups |
| SolverConfig.SpacedSumIsWordProblem | shared/src/commonMain/kotlin/SolverConfig.kt:48-53 | "1 + 2 + 3 + 4" is classified WORD_PROBLEM: it has six spaces and a digit, so the word rule fires before the arithmetic rule |
| SolverConfig.WordRuleWhen | shared/src/commonMain/kotlin/SolverConfig.kt:36-49 | text with no keyword that satisfies the word rule is WORD_PROBLEM |
| SolverConfig.LowerCaseDBracketIsSymbolic | shared/src/commonMain/kotlin/SolverConfig.kt:44-45 | "d[" counts as the symbolic keyword `D\[`, since the match ignores case |
| SolverConfig.DetectBestSolverMode | shared/src/desktopMain/kotlin/SolverConfig.desktop.kt:1-11 | ONLINE exactly when the network is available and the category is discrete, analysis or symbolic; OFFLINE otherwise |
| SolverConfig.OnlinePlaceholder | shared/src/desktopMain/kotlin/SolverConfig.desktop.kt:17-19 | the placeholder text starts with the fixed header and a newline, and ends with the fallback answer |
| SolverConfig.HeaderIsOneLine | shared/src/desktopMain/kotlin/SolverConfig.desktop.kt:17 | the fixed header holds no newline |
| SolverConfig.OnlinePlaceholderLines | shared/src/desktopMain/kotlin/SolverConfig.desktop.kt:17-19 | when the fallback answer holds no newline, the placeholder splits at newlines into exactly the header, "Problem detected: CATEGORY" and "Falling back to offline mode: ANSWER" |
| SolverConfig.PlaceholderShape | shared/src/desktopMain/kotlin/SolverConfig.desktop.kt:17-19 | the placeholder starts with the header line; when the answer is one line, it is exactly three lines, the second naming the classified category |
| SolverConfig.TwoLinesThenRest | shared/src/desktopMain/kotlin/SolverConfig.desktop.kt:17-19 | two newline-free lines joined by newlines to any rest split into those two lines followed by the pieces of the rest |
| SolverConfig.PlaceholderLeadingLines | shared/src/desktopMain/kotlin/SolverConfig.desktop.kt:17-19 | whatever the answer holds, even several lines, the placeholder's first two lines are the header and "Problem detected: CATEGORY", and the lines after them are exactly the lines of "Falling back to offline mode: " followed by the answer |
| Text.ContainsIgnoreCase | shared/src/desktopMain/kotlin/MathEvaluator.kt:55 | `contains(w, ignoreCase = true)` holds exactly when the lower-cased word occurs in the lower-cased text |
| Text.NoLetterNoKeyword | shared/src/commonMain/kotlin/SolverConfig.kt:36-45 | a keyword that starts with a letter never occurs, in any case, in text without letters |
| Text.Split | shared/src/commonMain/kotlin/SolverConfig.kt:48 | `split(d)` yields at least one piece and no piece contains `d` |
| Text.SplitAtFirst | shared/src/commonMain/kotlin/SolverConfig.kt:48 | text up to the first delimiter is the first piece, and the rest splits on its own |
| Text.SplitCount | shared/src/commonMain/kotlin/SolverConfig.kt:48 | `split(d)` yields one more piece than there are `d` characters |
| Text.Trim | shared/src/desktopMain/kotlin/MathEvaluator.kt:80 | the trimmed text is a slice `s[a..b]` of the input with only whitespace before `a` and after `b`, and no whitespace at either of its own ends; it is empty exactly when the input is all whitespace |
| Text.DigitSpans | shared/src/desktopMain/kotlin/MathEvaluator.kt:56 | the `\d+` matches are maximal digit runs, in increasing order, that do not overlap |
| Text.DigitSpansCover | shared/src/desktopMain/kotlin/MathEvaluator.kt:56 | every digit of the text lies in one of the matches |
| Text.DigitRuns | shared/src/desktopMain/kotlin/MathEvaluator.kt:56 | the texts of the `\d+` matches, one per match, each the slice of the input the match spans |
| Text.DigitRunValues | shared/src/androidMain/kotlin/MathEvaluator.kt:41 | there is one number per `\d+` match, the decimal value of that match's text |
| Text.DecimalString | shared/src/desktopMain/kotlin/MathEvaluator.kt:57 | `Int.toString` of a natural is a non-empty string of digits without a leading zero (except "0") |
| Text.DecimalStringValue | shared/src/desktopMain/kotlin/MathEvaluator.kt:57 | reading back the digits of `Int.toString(n)` gives `n` |
| Text.JoinToString | shared/src/desktopMain/kotlin/MathEvaluator.kt:125-136 | `joinToString(sep)` gives "" for no parts and the part itself for one |
| Text.JoinToStringEnds | shared/src/desktopMain/kotlin/MathEvaluator.kt:125-136 | a join of one or more parts starts with the first part and ends with the last, and with two or more the separator follows the first part |
| Text.JoinedNumeralsReadBack | shared/src/desktopMain/kotlin/MathEvaluator.kt:122-137 | numbers joined by a digit-free separator are read back by the `\d+` scan as the same list |
| Text.TwoNumerals | shared/src/androidMain/kotlin/MathEvaluator.kt:41 | two numerals in digit-free surroundings are read as exactly those two numbers |
| LazyRegex.SpaceRunEnd | shared/src/desktopMain/kotlin/MathEvaluator.kt:78 | greedy `\s+` stops at the first character that is not `\s` |
| LazyRegex.GreedyWordsMatch | shared/src/desktopMain/kotlin/MathEvaluator.kt:78 | the greedy reading of `\s+w1\s+w2...` is one of the backtracking readings |
| LazyRegex.MatchedWordsAreGreedy | shared/src/desktopMain/kotlin/MathEvaluator.kt:78 | when every word starts with a letter, every backtracking reading is the greedy one |
| LazyRegex.ExtendGroup | shared/src/desktopMain/kotlin/MathEvaluator.kt:78 | lazy `.+?` yields the shortest group that the pattern's tail accepts |
| LazyRegex.BackOffSpaces | shared/src/desktopMain/kotlin/MathEvaluator.kt:78 | backtracking into `\s+` tries group starts from the right and takes the first that succeeds |
| LazyRegex.MatchAt | shared/src/desktopMain/kotlin/MathEvaluator.kt:78 | a match at a given start exists exactly when the pattern matches there, and the one returned is the backtracking engine's preferred one |
| LazyRegex.FindFrom | shared/src/desktopMain/kotlin/MathEvaluator.kt:78 | the first start position from `i` on where the pattern matches |
| LazyRegex.Find | shared/src/desktopMain/kotlin/MathEvaluator.kt:78-79 | `Regex.find` returns a real match, or none exactly when the pattern matches nowhere; among all matches it returns the leftmost, preferred one |
| LazyRegex.NoLeadNoMatch | shared/src/desktopMain/kotlin/MathEvaluator.kt:107 | a pattern whose leading literal has a character the text lacks (in any case) matches nowhere |
| DesktopMathEvaluator.EvaluateExpression | shared/src/desktopMain/kotlin/MathEvaluator.kt:7-15 | "Result: " plus Symja's text when Symja returns a value; "Error evaluating expression: " plus the exception message, or "An error occurred" when it has none, when Symja throws; the answer starts with "Result: " exactly when Symja succeeds |
| DesktopMathEvaluator.ProofTarget | shared/src/desktopMain/kotlin/MathEvaluator.kt:24-31 | a known identity maps to its Symja check; every other input maps to "False" |
| DesktopMathEvaluator.ProveExpression | shared/src/desktopMain/kotlin/MathEvaluator.kt:21-37 | "Proof result: " plus Symja's text on the table's expression; an "Error" line when Symja throws; the two cases are distinguished by their prefix |
| DesktopMathEvaluator.ChooseBy | shared/src/desktopMain/kotlin/MathEvaluator.kt:53-121 | the branch taken applies, and no branch that applies comes earlier in the `when` |
| DesktopMathEvaluator.ChooseArm | shared/src/desktopMain/kotlin/MathEvaluator.kt:53-121 | the branch of the `when` is the first whose keywords the problem mentions, ignoring case |
| DesktopMathEvaluator.PermutationFirst | shared/src/desktopMain/kotlin/MathEvaluator.kt:55-59 | a problem that says "permutation" takes the permutation branch, whatever else it says |
| DesktopMathEvaluator.FirstAbove | shared/src/desktopMain/kotlin/MathEvaluator.kt:56 | finds the first element above a bound, or reports that there is none |
| DesktopMathEvaluator.ParseInts | shared/src/desktopMain/kotlin/MathEvaluator.kt:56 | `map { it.value.toInt() }` succeeds exactly when every `\d+` run fits in an Int, and then yields the run values; otherwise it fails with `For input string: "<run>"` for the first run that overflows |
| DesktopMathEvaluator.Captured | shared/src/desktopMain/kotlin/MathEvaluator.kt:78-80 | something is captured exactly when the pattern matches somewhere in the problem, and then it is the trimmed lazy group of the match `Regex.find` returns |
| DesktopMathEvaluator.JoinOperatorOf | shared/src/desktopMain/kotlin/MathEvaluator.kt:122-137 | the join operator is minus, times or over exactly when that keyword group is the first one mentioned, and plus otherwise |
| DesktopMathEvaluator.JoinSymbol | shared/src/desktopMain/kotlin/MathEvaluator.kt:125-136 | each separator is three characters, its operator between two spaces: '+' for the sum, '-' for the difference, '*' for the product and '/' for the quotient; none holds a digit |
| DesktopMathEvaluator.JoinSeparator | shared/src/desktopMain/kotlin/MathEvaluator.kt:122-137 | the separator is " + ", " - ", " * " or " / " as the first keyword group the problem mentions picks (" + " when none does), and holds no digit |
| DesktopMathEvaluator.SymjaExpression | shared/src/desktopMain/kotlin/MathEvaluator.kt:53-139 | building the Symja expression fails exactly when the chosen branch reads numbers and one of them overflows an Int, with that parse error; otherwise it is the chosen branch's template: filled with the `\d+` values for a branch that reads numbers, the fixed or captured text for the others, and the numbers it shows are the problem's own |
| DesktopMathEvaluator.FixedArmTemplates | shared/src/desktopMain/kotlin/MathEvaluator.kt:69-101 | the set, supremum, infimum and annulus branches give `Union[A, B]`, `Intersection[A, B]`, `Max[Set]`, `Min[Set]` and `Integrate[2*Pi*rho, {rho, r, R}]` |
| DesktopMathEvaluator.CaptureArmTemplates | shared/src/desktopMain/kotlin/MathEvaluator.kt:77-119 | the limit, series, derivative and integrate branches splice the trimmed capture into `Limit[_, n->Infinity]`, `Sum[_, {n, 1, Infinity}]`, `D[_, x]` and `Integrate[_, x]`, or fall back to `a_n`, `a_n`, `x^2` and `x` |
| DesktopMathEvaluator.NumberArmTemplates | shared/src/desktopMain/kotlin/MathEvaluator.kt:55-68 | once every number fits an Int: `Permutations[n0, n1]`, `Binomial[n0, n1]`, `n0!` and `n0 + n1` from the first numbers, or `Permutations[n, r]`, `Binomial[n, r]`, `n!` and `2 + 3` when there are too few; the `else` branch joins all numbers with the operator its keywords pick, and is empty without digits (lines 102-105 and 120-137) |
| DesktopMathEvaluator.TemplateShowsNumbers | shared/src/desktopMain/kotlin/MathEvaluator.kt:55-137 | every template that reads numbers shows them again, in the order the branch uses them |
| DesktopMathEvaluator.BracketReadBack | shared/src/desktopMain/kotlin/MathEvaluator.kt:57-62 | `Permutations[x, y]` and `Binomial[x, y]` (any digit-free head) hold exactly the numbers x and y |
| DesktopMathEvaluator.ApplesSumReadBack | shared/src/desktopMain/kotlin/MathEvaluator.kt:104 | `x + y` holds exactly the numbers x and y |
| DesktopMathEvaluator.Report | shared/src/desktopMain/kotlin/MathEvaluator.kt:141-145 | "Solution: " plus Symja's text when the expression was built and Symja succeeds; otherwise an "Error solving word problem: " line with the exception message |
| DesktopMathEvaluator.SolveWordProblem | shared/src/desktopMain/kotlin/MathEvaluator.kt:49-146 | the answer starts with "Solution: " exactly when the expression builds and Symja evaluates it; an overflowing number gives the NumberFormatException report; when Symja throws, the reply is "Error solving word problem: " followed by the exception's message, or "An error occurred" when it has none |
| DesktopMathEvaluator.ChooseArmExactly | shared/src/desktopMain/kotlin/MathEvaluator.kt:53-121 | a branch of the `when` is taken exactly when its keywords are mentioned and those of every earlier branch are not |
| DesktopMathEvaluator.LacksLetter | shared/src/desktopMain/kotlin/MathEvaluator.kt:55-106 | text written only with the letters of "derivative", in any case, does not mention a keyword holding another letter |
| DesktopMathEvaluator.DerivativeLettersPassEarlierArms | shared/src/desktopMain/kotlin/MathEvaluator.kt:55-106 | such text mentions no keyword of a branch before the derivative branch |
| DesktopMathEvaluator.BareDerivativeArm | shared/src/desktopMain/kotlin/MathEvaluator.kt:55-106 | the problem "derivative" takes the derivative branch |
| DesktopMathEvaluator.BareDerivativeSaysDerivative | shared/src/desktopMain/kotlin/MathEvaluator.kt:106 | the bare word "derivative" mentions the derivative keyword |
| DesktopMathEvaluator.BareDerivativeNoCapture | shared/src/desktopMain/kotlin/MathEvaluator.kt:107-108 | the derivative pattern captures nothing in the bare word "derivative" |
| DesktopMathEvaluator.DerivativeFallbackWhen | shared/src/desktopMain/kotlin/MathEvaluator.kt:107-111 | without a capture, the derivative template falls back to `D[x^2, x]` |
| DesktopMathEvaluator.BareDerivativeTemplate | shared/src/desktopMain/kotlin/MathEvaluator.kt:106-111 | the Symja expression for "derivative" is `D[x^2, x]` |
| DesktopSolverConfig.DetectBestSolverMode | shared/src/desktopMain/kotlin/SolverConfig.desktop.kt:1-11 | with the ping result as `reachable`: ONLINE exactly when reachable and the category is hard; never ONLINE for arithmetic or word problems, or when unreachable |
| DesktopSolverConfig.SolveOnline | shared/src/desktopMain/kotlin/SolverConfig.desktop.kt:13-23 | the placeholder starts with the header line and its second line names the category; the lines after the second are the lines of "Falling back to offline mode: " followed by the desktop evaluateExpression answer, so with a one-line answer there are exactly three |
| DesktopSolverConfig.SolveOnlineIgnoresConfig | shared/src/desktopMain/kotlin/SolverConfig.desktop.kt:13-23 | the configuration argument does not affect the answer |
| AndroidMathEvaluator.RemoveSpaces | shared/src/androidMain/kotlin/MathEvaluator.kt:10 | `replace(" ", "")` leaves no space and never lengthens the text |
| AndroidMathEvaluator.RemoveSpacesKeepsOthers | shared/src/androidMain/kotlin/MathEvaluator.kt:10 | every character other than a space keeps its count |
| AndroidMathEvaluator.RemoveSpacesAppend | shared/src/androidMain/kotlin/MathEvaluator.kt:10 | removing spaces distributes over concatenation |
| AndroidMathEvaluator.RemoveSpacesKeeps | shared/src/androidMain/kotlin/MathEvaluator.kt:10 | text without spaces is left unchanged |
| AndroidMathEvaluator.IsValidExpression | shared/src/androidMain/kotlin/MathEvaluator.kt:12-13 | the check passes exactly when SOME character is a digit, a supported operator, '.', '(' or ')' (`any`) |
| AndroidMathEvaluator.ValidityIgnoresSpaces | shared/src/androidMain/kotlin/MathEvaluator.kt:10-13 | checking the cleaned text gives the same verdict as checking the raw text |
| AndroidMathEvaluator.Reported | shared/src/androidMain/kotlin/MathEvaluator.kt:19-24 | a value is shown as exp4j's text; an exception as "Error: " plus its message, or "Invalid expression" when it has none |
| AndroidMathEvaluator.EvaluateExpression | shared/src/androidMain/kotlin/MathEvaluator.kt:7-25 | input with no supported character gives the fixed error; otherwise the answer is exp4j's result on the text with its spaces removed |
| AndroidMathEvaluator.SineReachesExp4j | shared/src/androidMain/kotlin/MathEvaluator.kt:10-21 | "sin(1)" is passed to exp4j unchanged |
| AndroidMathEvaluator.SpacedSumReachesExp4jCompact | shared/src/androidMain/kotlin/MathEvaluator.kt:10-21 | "1 + 2" reaches exp4j as "1+2" |
| AndroidMathEvaluator.ProveExpression | shared/src/androidMain/kotlin/MathEvaluator.kt:30-32 | every request gets the fixed refusal |
| AndroidSolverConfig.ContextReachable | shared/src/androidMain/kotlin/SolverConfig.android.kt:40-43 | true exactly when there is a connectivity service with an active network whose capabilities are known and include internet; false otherwise |
| AndroidSolverConfig.AndroidRuntime.constructor | shared/src/androidMain/kotlin/SolverConfig.android.kt:7 | no context is stored at start-up |
| AndroidSolverConfig.AndroidRuntime.InitializeContext | shared/src/androidMain/kotlin/SolverConfig.android.kt:9-11 | the given context is stored, replacing any earlier one |
| AndroidSolverConfig.AndroidRuntime.IsNetworkAvailable | shared/src/androidMain/kotlin/SolverConfig.android.kt:37-44 | false without a stored context; otherwise the stored context's reachability |
| AndroidSolverConfig.AndroidRuntime.DetectBestSolverMode | shared/src/androidMain/kotlin/SolverConfig.android.kt:13-24 | ONLINE exactly when the network is available and the category is hard; always OFFLINE before a context is stored |
| AndroidSolverConfig.FreshRuntimeMode | shared/src/androidMain/kotlin/SolverConfig.android.kt:7-24 | before initializeContext runs, every category is solved OFFLINE |
| AndroidSolverConfig.InitializedRuntimeMode | shared/src/androidMain/kotlin/SolverConfig.android.kt:9-24 | after initializeContext, the mode is ONLINE exactly when that context reaches the internet and the category is hard |
| AndroidSolverConfig.SolveOnline | shared/src/androidMain/kotlin/SolverConfig.android.kt:26-35 | the placeholder starts with the header line and its second line names the category; the lines after the second are the lines of "Falling back to offline mode: " followed by the Android evaluateExpression answer, so with a one-line answer there are exactly three |
| AndroidSolverConfig.SolveOnlineIgnoresConfig | shared/src/androidMain/kotlin/SolverConfig.android.kt:26-35 | the configuration argument does not affect the answer |
| IosMathEvaluator.EvaluateExpression | shared/src/iosMain/kotlin/MathEvaluator.kt:1-3 | every expression gets the fixed "not supported" answer |
| IosMathEvaluator.ProveExpression | shared/src/iosMain/kotlin/MathEvaluator.kt:5-7 | every request gets the fixed refusal |
| IosSolverConfig.IsNetworkAvailable | shared/src/iosMain/kotlin/SolverConfig.ios.kt:24-28 | the network is never reported as available |
| IosSolverConfig.DetectBestSolverMode | shared/src/iosMain/kotlin/SolverConfig.ios.kt:1-11 | every category is solved OFFLINE |
| IosSolverConfig.SolveOnline | shared/src/iosMain/kotlin/SolverConfig.ios.kt:13-22 | the placeholder starts with the header line and its second line names the category; the lines after the second are the lines of "Falling back to offline mode: " followed by the keyword solver's "Solution: " answer |
| IosSolverConfig.SolveOnlineIgnoresConfig | shared/src/iosMain/kotlin/SolverConfig.ios.kt:13-22 | the configuration argument does not affect the answer |
| IosSolverConfig.PlaceholderWithSolution | shared/src/iosMain/kotlin/SolverConfig.ios.kt:16-18 | with a one-line rendering, the placeholder is exactly three lines, and the third reports the keyword answer |
| KeywordArithmetic.ChooseOperation | shared/src/androidMain/kotlin/MathEvaluator.kt:44-67 | sum, difference, product and quotient are chosen exactly when their group is the first one mentioned, in that order; otherwise the default is used |
| KeywordArithmetic.MoreBeatsLess | shared/src/androidMain/kotlin/MathEvaluator.kt:44-54 | text that says both "more" and "less" is summed |
| KeywordArithmetic.TotalBoundsEach | shared/src/androidMain/kotlin/MathEvaluator.kt:47 | a sum of naturals is at least each term |
| KeywordArithmetic.ProductZeroIff | shared/src/androidMain/kotlin/MathEvaluator.kt:57 | a product is zero exactly when some factor is zero |
| KeywordArithmetic.SumFrom | shared/src/androidMain/kotlin/MathEvaluator.kt:47 | the left-to-right running total equals the reference sum added to the start value |
| KeywordArithmetic.FoldProduct | shared/src/androidMain/kotlin/MathEvaluator.kt:57 | the left fold multiplies the start value by the reference product |
| KeywordArithmetic.Apply | shared/src/androidMain/kotlin/MathEvaluator.kt:44-67 | sum and the default add all operands; difference is first minus the rest, or 0 with fewer than two operands; product is zero exactly when a factor is zero; quotient times the second operand gives the first, or the answer is 0 with fewer than two operands or a zero divisor |
| KeywordArithmetic.Answer | shared/src/androidMain/kotlin/MathEvaluator.kt:43-67 | the first keyword group mentioned decides: the sum; the first number minus the sum of the rest, or 0.0 with fewer than two; the product; the first over the second, or 0.0 with fewer than two or a zero second; with no group, the sum |
| KeywordArithmetic.Operands | shared/src/androidMain/kotlin/MathEvaluator.kt:41 | there is one operand per `\d+` match, the decimal value of that match's text |
| KeywordArithmetic.SolveWordProblem | shared/src/androidMain/kotlin/MathEvaluator.kt:39-72 | "Solution: " followed by the rendered answer (shared by iOS at shared/src/iosMain/kotlin/MathEvaluator.kt:9-42 and Web at shared/src/wasmJsMain/kotlin/MathEvaluator.kt:33-66) |
| KeywordArithmetic.SolutionIsOneLine | shared/src/androidMain/kotlin/MathEvaluator.kt:48 | the reply is one line whenever the rendered number is |
| KeywordArithmetic.ApplesOperands | shared/src/androidMain/kotlin/MathEvaluator.kt:41 | "I have 2 apples and buy 3 more" has operands 2 and 3 |
| KeywordArithmetic.ApplesAnswer | shared/src/androidMain/kotlin/MathEvaluator.kt:44-49 | that sentence says "more", so it is answered 5 |
| WebMathEvaluator.NumeralValue | shared/src/wasmJsMain/kotlin/MathEvaluator.kt:3 | a scanned decimal is worth at least its whole part and, when its fraction has fewer digits than places, less than the whole part plus one; without places it is the whole part |
| WebMathEvaluator.QuotientBelowOne | shared/src/wasmJsMain/kotlin/MathEvaluator.kt:3 | a fraction whose numerator is below its positive denominator is below one |
| WebMathEvaluator.DigitsBelow | shared/src/wasmJsMain/kotlin/MathEvaluator.kt:3 | a run of d digits is worth less than 10^d, so the fraction read after the point is below one |
| WebMathEvaluator.NumeralsFromRead | shared/src/wasmJsMain/kotlin/MathEvaluator.kt:3 | each number the scan reads from index i is what `toDouble()` reads from the corresponding match |
| WebMathEvaluator.NumeralSpansFromAreMatches | shared/src/wasmJsMain/kotlin/MathEvaluator.kt:3 | every match the scan reports from index i is a maximal digit run, extended by a point and a maximal digit run exactly when a point followed by a digit is there |
| WebMathEvaluator.NumeralSpansFromOrdered | shared/src/wasmJsMain/kotlin/MathEvaluator.kt:3 | the matches lie left to right, each ending before the next one starts |
| WebMathEvaluator.NumeralSpansFromComplete | shared/src/wasmJsMain/kotlin/MathEvaluator.kt:3 | every digit at or after index i lies inside one of the matches |
| WebMathEvaluator.NumeralSpans | shared/src/wasmJsMain/kotlin/MathEvaluator.kt:3 | `findAll` of `\d+(\.\d+)?`: every match is such a greedy match, and the matches do not overlap and are in order |
| WebMathEvaluator.Decimals | shared/src/wasmJsMain/kotlin/MathEvaluator.kt:3 | one operand per match of the `\d+(\.\d+)?` scan, each at least the match's whole part |
| WebMathEvaluator.DecimalsRead | shared/src/wasmJsMain/kotlin/MathEvaluator.kt:3 | the operands are the `toDouble()` values of the matches, one for one, each at least its whole part and below the whole part plus one, and every digit of the text lies in some match |
| WebMathEvaluator.NoPointNumeralsFrom | shared/src/wasmJsMain/kotlin/MathEvaluator.kt:3 | in text without a point, the `\d+(\.\d+)?` scan reads the same whole numbers as `\d+` |
| WebMathEvaluator.RunValuesFromSpans | shared/src/wasmJsMain/kotlin/MathEvaluator.kt:3 | each number read is the value of the matching digit run |
| WebMathEvaluator.NoPointDecimals | shared/src/wasmJsMain/kotlin/MathEvaluator.kt:3 | without a point, the Web operands are the keyword solver's operands |
| WebMathEvaluator.RealsAgree | shared/src/wasmJsMain/kotlin/MathEvaluator.kt:6-17 | the Web sum and product of whole numbers equal the keyword solver's sum and product |
| WebMathEvaluator.Combine | shared/src/wasmJsMain/kotlin/MathEvaluator.kt:5-23 | `+` wins over `-`, then `*`, then `/`; `-` and `/` need two operands and `/` a non-zero divisor; the quotient times the divisor gives the dividend; no answer exactly when no rule applies |
| WebMathEvaluator.WebValue | shared/src/wasmJsMain/kotlin/MathEvaluator.kt:3-23 | an expression with `+` is the sum of its numbers; `-` with two numbers is the first minus the rest; `*` is the product; no value exactly when no operator rule applies |
| WebMathEvaluator.WebQuotient | shared/src/wasmJsMain/kotlin/MathEvaluator.kt:18-21 | a `/` expression that reaches the division rule gives a quotient that, times the second number, is the first |
| WebMathEvaluator.DivisionUndone | shared/src/wasmJsMain/kotlin/MathEvaluator.kt:19 | dividing by a non-zero number and multiplying back gives the dividend |
| WebMathEvaluator.WebAgreesWithKeywordArithmetic | shared/src/wasmJsMain/kotlin/MathEvaluator.kt:3-17 | on text without a point, a Web sum or product equals the keyword solver's sum or product of the same text |
| WebMathEvaluator.DecimalSumOperands | shared/src/wasmJsMain/kotlin/MathEvaluator.kt:3 | "3.5 + 1.5" is read as 3.5 and 1.5 |
| WebMathEvaluator.PlusTotals | shared/src/wasmJsMain/kotlin/MathEvaluator.kt:6-8 | any expression containing '+' evaluates to the sum of its operands |
| WebMathEvaluator.DecimalSum | shared/src/wasmJsMain/kotlin/MathEvaluator.kt:6-9 | "3.5 + 1.5" evaluates to 5.0 |
| WebMathEvaluator.EvaluateExpression | shared/src/wasmJsMain/kotlin/MathEvaluator.kt:1-27 | the rendered value when an operator rule applies; otherwise the fixed "only basic arithmetic" error |
| WebMathEvaluator.ProveExpression | shared/src/wasmJsMain/kotlin/MathEvaluator.kt:29-31 | every request gets the fixed refusal |
| WebMathEvaluator.GetPlatformName | shared/src/wasmJsMain/kotlin/MathEvaluator.kt:68 | the name is "Web" |
| WebSolverConfig.IsNetworkAvailable | shared/src/wasmJsMain/kotlin/SolverConfig.wasmJs.kt:24-27 | the network is always reported as available |
| WebSolverConfig.DetectBestSolverMode | shared/src/wasmJsMain/kotlin/SolverConfig.wasmJs.kt:1-11 | ONLINE exactly for discrete, analysis and symbolic problems |
| WebSolverConfig.SolveOnline | shared/src/wasmJsMain/kotlin/SolverConfig.wasmJs.kt:13-22 | the placeholder starts with the header line and its second line names the category; the lines after the second are the lines of "Falling back to offline mode: " followed by the Web evaluateExpression answer, so with a one-line answer there are exactly three |
| WebSolverConfig.SolveOnlineIgnoresConfig | shared/src/wasmJsMain/kotlin/SolverConfig.wasmJs.kt:13-22 | the configuration argument does not affect the answer |

## Left out

- **Double arithmetic.**
  - Numbers are exact reals; Double rounding, overflow to Infinity, and NaN are not modelled.
  - Web `toDouble` is read exactly as whole part plus fraction over a power of ten.
  - `Double.toString` is the `render` parameter.
- **Symja and exp4j.** They are opaque parameters. What they compute, and any exception thrown while building the
  evaluator, is outside the model.
- **Reachability probes.**
  - Desktop `Runtime.exec("ping -c 1 8.8.8.8")` and its exit code are the `reachable` parameter.
  - Android `getSystemService`, `activeNetwork` and `getNetworkCapabilities` are fields of a `Context` value. A failed
    `as?` cast is a missing service.
- **Unreachable exception handlers.** The model does not include:
  - the `catch` of every `solveOnline`, which produces "Online solve error";
  - the `catch` of the keyword `solveWordProblem` on Android, iOS and Web;
  - the `catch` of Web `evaluateExpression`.

  The code inside these `try` blocks cannot throw. It is string templates, or `toDouble` on text already matched as a
  number. The Symja and exp4j calls inside them are modelled by their own outcome.
- **Kotlin coroutines.** `suspend` is not modelled. `solveOnline` is modelled as a plain function.
- **Case folding.**
  - Text.ContainsIgnoreCase: `contains(ignoreCase = true)` compares characters by their Unicode upper and lower
    cases. The model folds ASCII letters only.
  - SolverConfig.ClassifyProblem: on the JVM, `RegexOption.IGNORE_CASE` also turns on Unicode case folding, so text
    such as "lımit" (dotless i) or "ſeries" (long s) matches a keyword there and does not match in the model. On Wasm,
    `\d` and `\s` are the JavaScript classes, and `\s` also accepts Unicode spaces. The model folds ASCII letters
    and reads ASCII digits and whitespace only.
  - LazyRegex.Find: the same applies to the desktop capture patterns. Their case-insensitive leads fold ASCII letters
    only, and `\s` is ASCII whitespace only.
  - AndroidMathEvaluator.IsValidExpression: `Char.isDigit()` accepts all Unicode decimal digits. The model accepts
    ASCII digits only.
- **Pattern shapes.** LazyRegex.Find covers only the pattern shapes the desktop solver uses: a literal lead, `\s+`, a
  lazy `(.+?)`, then alternatives of words or `$`.
- **Declarations only.** The `expect` declarations (shared/src/commonMain/kotlin/SolverConfig.kt:20, 62, 67) carry no
  behaviour. Each target's actual is modelled.
- **UI and API types.** The Compose UI (`App.kt`), the OpenAI request and response types, the build scripts and the
  platform entry points are not part of the solver core.
- WebMathEvaluator.WebValue: its contract leaves the division rule to WebQuotient, which states it for the same
  function.
