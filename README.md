# Graphing calculator core in Dafny

This project models the computational core of a browser graphing calculator.

- **Expression engine** (`math-parser.js`):
  - a tokenizer for arithmetic expressions;
  - a recursive-descent evaluator with the usual precedence levels (`+ -`, then `* /`, then `^`), unary signs, groups, function calls, named constants and variables;
  - the function and constant registries;
  - `CompiledExpression`, which tokenizes once and evaluates many times, and `math.compile`.
- **Grapher logic** (`grapher.js`):
  - `normalizeExpression`, which inserts the implicit multiplications;
  - `evaluateFunction`, which turns an evaluation into "a finite number, or nothing";
  - the asymptote and hole detection heuristics, which scan 1000 centres across the view;
  - the deduplication of the detected asymptotes;
  - the maps between graph coordinates and canvas pixels;
  - the bound updates made while panning.

The modules follow the program's structure:

| file | module | what it holds |
|---|---|---|
| `wrappers.dfy` | `Wrappers` | `Option` and `Result` |
| `numeric.dfy` | `Numeric` | JavaScript numbers as `Finite(real)`, `PosInf`, `NegInf` or `NaN`, with `+ - * /` and negation |
| `registry.dfy` | `Registry` | `this.functions` and `this.constants` as finite maps; the `Math.*` routines, `Math.pow`, `Math.PI` and `Math.E` are a parameter `MathLib` |
| `tokenizer.dfy` | `Tokenizer` | `Lex`, the tokenizer as a function over the remaining input, and `Tokenize`, the source's index-advancing `while` loop, proved equal to it |
| `tokenizer_props.dfy` | `TokenizerProperties` | token classes, maximal munch, and when the tokenizer fails |
| `evaluator.dfy` | `Evaluator` | one specification function per grammar level, each returning the value and the tokens it left; the class `Parser`, with the source's cursor `pos` and `while` loops, whose methods are proved to agree with those functions |
| `evaluator_extension.dfy` | `EvaluatorExtension` | appending tokens that a level does not consume leaves that level's result unchanged |
| `evaluator_props.dfy` | `EvaluatorProperties` | operands, precedence and left associativity |
| `evaluator_facts.dfy` | `EvaluatorFacts` | signs, groups, calls, identifier resolution, the error cases, and trailing tokens |
| `compiled.dfy` | `Compiled` | `CompiledExpression` and `math.compile` |
| `normalize.dfy` | `Normalize` | `normalizeExpression` as four regular-expression passes, and what they do |
| `features.dfy` | `Features` | the classification of one sample, the 1000-sample scan, the horizontal candidates and deduplication, as functions |
| `features_props.dfy` | `FeaturesProperties` | the properties of those functions |
| `coordinates.dfy` | `Coordinates` | the four coordinate maps and the pan shift |
| `grapher.dfy` | `Graphing` | the class `Grapher`, whose methods are proved against the functions above, and `PlotFunction`, whose detected features they update in place |

The main modelling choices:

- **Numbers.** A JavaScript number is `Finite(r)` for a real `r`, `PosInf`, `NegInf` or `NaN`.
  - The operators follow IEEE 754 on these values: NaN is absorbing, infinities of opposite signs cancel to NaN, an infinity times zero is NaN, and a finite number divided by an infinity is 0. So `1/(1/x)` at `x = 0` is 0, as in JavaScript.
  - The choice made here is to use exact reals for finite values, with no rounding and no overflow to Infinity, and to have no negative zero: every zero is `Finite(0.0)`, read as +0.
  - `evaluateFunction` turns every non-finite result into `null`.
- **Errors.** The evaluator's errors are the kinds the source raises:
  - unexpected end;
  - missing closing parenthesis;
  - unexpected token;
  - unknown function;
  - unknown identifier.
- **Error wrapping.** `CompiledExpression` wraps a tokenizer error as a parse error and an evaluator error as an evaluation error.
- **Trailing tokens.** The evaluator returns after one complete top-level expression and does not look at what follows. So `2 2` evaluates to 2 and `2+2)` evaluates to 4 (`EvaluatorFacts.TrailingTokensIgnored`).
- **Arity.** The source does not check the arity of a call:
  - a missing argument is `undefined`, which every `Math.*` routine turns into NaN;
  - extra arguments are ignored.
  - The model does the same, although a per-name arity could be read into the registry's description.
- **The closing-parenthesis test.** The source compares only a token's value with `")"`. The model keeps this comparison (`Evaluator.ClosesParen`).

## Model

| member | source | states |
|---|---|---|
| Registry.Constants | math-parser.js:31-34 | the constant registry has exactly the names `pi` and `e`, both finite |
| Registry.Functions | math-parser.js:6-29 | the function registry: exactly the 22 names of the source, each bound to its `Math.*` routine or to one of the four derived entries, with `log` bound to the decimal logarithm |
| Registry.Call | math-parser.js:6-29 | a registry entry applied to spread arguments: a `Math.*` routine reads the first argument (NaN when it is missing) and ignores the rest; `sec`, `csc` and `cot` are 1 over `cos`, `sin` and `tan`; `logb(base, value)` is `ln(value) / ln(base)` |
| Registry.RegistryCalls | math-parser.js:6-29 | `log` and `log10` call the decimal logarithm and `ln` the natural one; `logb(base, value)` is `ln(value) / ln(base)`; `sec` is 1 over `cos`; a missing argument reaches the routine as NaN and an extra one is ignored |
| Numeric.Abs | grapher.js:431 | `Math.abs` is non-negative and is `x` or `-x` |
| Numeric.NegNeg | math-parser.js:169 | negating twice gives back the number, finite or not |
| Numeric.DivByZero | math-parser.js:142 | dividing by zero never gives a finite number, and gives NaN exactly for `0/0` or a NaN dividend |
| Numeric.DivByInfinity | math-parser.js:142 | a finite number divided by either infinity is 0 |
| Numeric.FiniteArithmetic | math-parser.js:112-143 | on finite operands `+`, `-` and `*` are exact real arithmetic and `/` is finite exactly for a non-zero divisor; a NaN operand makes all four NaN |
| Tokenizer.Lex | math-parser.js:41-97 | the tokenizer as a function of the remaining text: whitespace is skipped; a digit, or a `.` followed by a digit, starts a number that takes the maximal run of digits and dots; a letter starts an identifier that takes the maximal run of letters; an operator or a comma is one token; any other character fails with that character. `Tokenizer.Tokenize` is proved equal to it, and the `TokenizerProperties` rows state its properties |
| Tokenizer.Run | math-parser.js:60-63 | the scanned run lies inside the input, every character in it has the property, and the character after it does not |
| Tokenizer.ParseFloat | math-parser.js:64 | the value of a number lexeme is never negative |
| Tokenizer.Tokenize | math-parser.js:41-97 | the `while` loop returns exactly what `Lex` specifies, tokens or the first unexpected character |
| Tokenizer.ScanRun | math-parser.js:59-63 | the inner loop collects the maximal run starting at `i`, and stops at the end or at the first character that does not belong |
| Tokenizer.LexSkipStep | math-parser.js:49-52 | a whitespace character is skipped and emits nothing |
| Tokenizer.LexSingleStep | math-parser.js:79-93 | an operator character or a comma emits one token; any other non-letter, non-digit character is the "Unexpected character" error |
| Tokenizer.LexNumberStep | math-parser.js:55-65 | a number starting at `i` extends to the end of its run of digits and dots, and emits that lexeme's value |
| Tokenizer.LexNameStep | math-parser.js:69-76 | an identifier starting at `i` extends to the end of its run of letters |
| TokenizerProperties.LexTokensWellFormed | math-parser.js:41-97 | every emitted token is a non-negative number, a non-empty identifier of ASCII letters, one of `+-*/^()`, or a comma |
| TokenizerProperties.LexSkipsWhitespace | math-parser.js:49-52 | leading whitespace does not change the result |
| TokenizerProperties.LexNumberMaximal | math-parser.js:55-65 | a maximal run of digits and dots that starts a number becomes one number token |
| TokenizerProperties.LexIdentifierMaximal | math-parser.js:69-76 | a maximal run of letters becomes one identifier token |
| TokenizerProperties.LexLoneDot | math-parser.js:55-58 | a `.` not followed by a digit does not start a number and is rejected |
| TokenizerProperties.LexSingleCharacter | math-parser.js:79-91 | an operator or a comma becomes a token of its own, followed by the tokens of the rest |
| TokenizerProperties.LexRejects | math-parser.js:93 | an input containing a character other than whitespace, a digit, a letter, an operator, a comma or a `.` fails |
| TokenizerProperties.LexAccepts | math-parser.js:45-96 | an input made only of whitespace, digits, letters, operators and commas (no `.`) always tokenizes |
| TokenizerProperties.LexErrorCharacter | math-parser.js:93 | the character reported by the error occurs in the input, and it is a `.` or a character other than whitespace, a digit, a letter, an operator or a comma |
| TokenizerProperties.ParseFloatOfDigits | math-parser.js:64 | a lexeme of digits only is read as its decimal value |
| TokenizerProperties.LexExample | math-parser.js:41-97 | `2*x+3` gives the five tokens `2`, `*`, `x`, `+`, `3` |
| Evaluator.Evaluation | math-parser.js:99-247 | `evaluate(tokens, variables)`: the sum level parsed from the first token, with any tokens left over ignored. `Evaluator.Evaluate` is proved equal to it; precedence, associativity and the error cases are the `EvaluatorProperties` and `EvaluatorFacts` rows |
| Evaluator.Primary | math-parser.js:175-244 | a primary that succeeds consumes at least one token |
| Evaluator.Unary | math-parser.js:161-173 | a unary expression that succeeds consumes at least one token |
| Evaluator.PowerRest | math-parser.js:152-156 | the `^` loop never consumes more than it is given |
| Evaluator.Power | math-parser.js:149-159 | a power expression that succeeds consumes at least one token |
| Evaluator.MulDivRest | math-parser.js:132-144 | the `*`/`/` loop never consumes more than it is given |
| Evaluator.MulDiv | math-parser.js:129-147 | a product that succeeds consumes at least one token |
| Evaluator.AddSubRest | math-parser.js:112-124 | the `+`/`-` loop never consumes more than it is given |
| Evaluator.AddSub | math-parser.js:109-127 | a sum that succeeds consumes at least one token |
| Evaluator.ArgsRest | math-parser.js:213-216 | the comma loop only adds arguments and never consumes more than it is given |
| Evaluator.ArgList | math-parser.js:207-222 | the argument list never consumes more than it is given |
| Evaluator.Parser.constructor | math-parser.js:100-103 | the cursor starts at position 0 over the given tokens |
| Evaluator.Parser.ParseAddSub | math-parser.js:109-127 | the cursor method returns the value and error of `AddSub` and leaves `pos` after the tokens it consumed |
| Evaluator.Parser.ParseMulDiv | math-parser.js:129-147 | the same, for `MulDiv` |
| Evaluator.Parser.ParsePower | math-parser.js:149-159 | the same, for `Power` |
| Evaluator.Parser.ParseUnary | math-parser.js:161-173 | the same, for `Unary` |
| Evaluator.Parser.ParseArguments | math-parser.js:207-222 | the argument loop returns the arguments and error of `ArgList` and leaves `pos` after them |
| Evaluator.Parser.ParsePrimary | math-parser.js:175-244 | the same, for `Primary` |
| Evaluator.Evaluate | math-parser.js:99-247 | `evaluate` returns exactly `Evaluation`: the value of one top-level sum, or its error |
| EvaluatorExtension.PrimaryExtends | math-parser.js:175-244 | tokens appended after a primary that it does not read leave its value unchanged and stay unread |
| EvaluatorExtension.UnaryExtends | math-parser.js:161-173 | the same, for a unary expression |
| EvaluatorExtension.PowerRestExtends | math-parser.js:152-156 | the same, for the `^` loop, when the appended tokens do not start with `^` |
| EvaluatorExtension.PowerExtends | math-parser.js:149-159 | the same, for a power expression |
| EvaluatorExtension.MulDivRestExtends | math-parser.js:132-144 | the same, for the `*`/`/` loop, when the appended tokens do not start with `*` or `/` |
| EvaluatorExtension.MulDivExtends | math-parser.js:129-147 | the same, for a product |
| EvaluatorExtension.AddSubRestExtends | math-parser.js:112-124 | the same, for the `+`/`-` loop, when the appended tokens do not start with `+` or `-` |
| EvaluatorExtension.AddSubExtends | math-parser.js:109-127 | the same, for a sum |
| EvaluatorExtension.ArgsRestExtends | math-parser.js:213-216 | the same, for the comma loop, when it stopped before the end |
| EvaluatorExtension.ArgListExtends | math-parser.js:207-222 | the same, for an argument list |
| EvaluatorFacts.UnaryErrorPropagates | math-parser.js:109-173 | an error in the first unary operand is the error of the whole evaluation |
| EvaluatorFacts.UnsignedIsPrimary | math-parser.js:161-173 | without a leading sign, a unary expression is a primary |
| EvaluatorFacts.OperandEvaluation | math-parser.js:246 | an operand alone evaluates to its value |
| EvaluatorFacts.NumberOperand | math-parser.js:183-186 | a number token is an operand whose value is the number |
| EvaluatorFacts.SignedOperand | math-parser.js:161-170 | a `+` or `-` before an operand gives an operand whose value is the same or negated |
| EvaluatorFacts.DoubleNegation | math-parser.js:161-170 | `--x` evaluates to `x` |
| EvaluatorFacts.SignBindsTighterThanPower | math-parser.js:149-170 | `-a^b` evaluates to `(-a)^b`: the sign binds tighter than `^` |
| EvaluatorFacts.GroupOperand | math-parser.js:189-197 | `( E )` is an operand whose value is the value of `E` |
| EvaluatorFacts.CallOperand | math-parser.js:204-226 | `f( E )` with a registered `f` is an operand whose value is `f` applied to the value of `E` |
| EvaluatorFacts.CallOperand2 | math-parser.js:204-226 | `f( E1 , E2 )` passes both values, in order |
| EvaluatorFacts.EmptyCall | math-parser.js:205-227 | `f()` calls `f` with no arguments, or fails with "Unknown function" |
| EvaluatorFacts.UnknownFunctionAfterArguments | math-parser.js:219-227 | an unregistered name fails with "Unknown function" only after its arguments and `)` parsed |
| EvaluatorFacts.UnclosedCall | math-parser.js:219-221 | a call whose arguments are not followed by `)` fails with "Missing closing parenthesis" |
| EvaluatorFacts.UnclosedGroup | math-parser.js:192-194 | a group not closed by `)` fails with "Missing closing parenthesis" |
| EvaluatorFacts.EmptyInput | math-parser.js:178-180 | no tokens fails with "Unexpected end of expression" |
| EvaluatorFacts.DanglingOperator | math-parser.js:178-180 | an operand followed by a binary operator and nothing else fails with "Unexpected end of expression" |
| EvaluatorFacts.UnexpectedFirstToken | math-parser.js:243 | a `,`, `)`, `*`, `/` or `^` where a primary is expected fails with "Unexpected token" naming it |
| EvaluatorFacts.ConstantsShadowVariables | math-parser.js:230-233 | `pi` and `e` evaluate to the constants whatever the variable bindings say |
| EvaluatorFacts.VariableOperand | math-parser.js:235-238 | a bound variable that is not a constant is an operand with its bound value |
| EvaluatorFacts.VariableLookup | math-parser.js:230-240 | a name that is not a constant evaluates to its binding, or fails with "Unknown identifier" when unbound |
| EvaluatorFacts.TrailingTokensIgnored | math-parser.js:246 | tokens after a complete sum that cannot continue it are ignored |
| EvaluatorFacts.TrailingTokensExamples | math-parser.js:246 | `2 2` evaluates to 2 and `2+2)` evaluates to 4 |
| EvaluatorProperties.OperandThen | math-parser.js:161-173 | an operand followed by tokens that cannot extend a primary is read as its value, leaving those tokens |
| EvaluatorProperties.PowerStep | math-parser.js:152-156 | one pass of the `^` loop replaces the left value by `pow(left, b)` |
| EvaluatorProperties.PowerOfOperand | math-parser.js:149-159 | an operand not followed by `^` is a power expression with its own value |
| EvaluatorProperties.PowerOfPair | math-parser.js:149-159 | `a ^ b` is `pow(a, b)` |
| EvaluatorProperties.PowerOfTriple | math-parser.js:149-159 | `a ^ b ^ c` is `pow(pow(a, b), c)`: `^` associates to the left |
| EvaluatorProperties.MulDivRestStep | math-parser.js:132-144 | one pass of the `*`/`/` loop applies the operator to the left value and the next power expression |
| EvaluatorProperties.AddSubRestStep | math-parser.js:112-124 | one pass of the `+`/`-` loop applies the operator to the left value and the next product |
| EvaluatorProperties.EvaluationOfSum | math-parser.js:109-127 | a product followed by a `+`/`-` loop that consumes everything evaluates to the loop's result |
| EvaluatorProperties.EvaluationOfProduct | math-parser.js:109-127 | a product that consumes everything is the whole evaluation |
| EvaluatorProperties.PrecedenceAfterPower | math-parser.js:109-159 | `a ^ b o c` is `(a ^ b) o c` for every binary `o` |
| EvaluatorProperties.PrecedenceAfterProduct | math-parser.js:109-159 | `a * b o c` is `a * (b ^ c)` when `o` is `^`, and `(a * b) o c` otherwise |
| EvaluatorProperties.PrecedenceAfterSum | math-parser.js:109-159 | `a + b o c` is `(a + b) o c` when `o` is `+` or `-`, and `a + (b o c)` otherwise |
| EvaluatorProperties.Precedence | math-parser.js:109-159 | `a o1 b o2 c` groups to the left when `o1` binds at least as tightly as `o2`, and to the right otherwise |
| Compiled.Outcome | math-parser.js:250-278 | `math.compile(expression).evaluate(variables)`: a tokenizer failure is a parse error, an evaluation failure is an evaluation error, and otherwise the value of the tokens. `Compiled.ParseErrorsAreCharacters` and `Compiled.OutcomeExample` state its properties |
| Compiled.EvaluateTokens | math-parser.js:263-269 | evaluating the stored tokens fails only with an evaluation error, and succeeds exactly when the evaluator does |
| Compiled.CompiledExpression.constructor | math-parser.js:251-261 | a compiled expression keeps its text and the tokens of that text |
| Compiled.CompiledExpression.Evaluate | math-parser.js:263-269 | evaluating with some bindings gives the outcome of tokenizing and evaluating the expression; the stored tokens do not change |
| Compiled.Compile | math-parser.js:273-278 | compiling fails exactly when tokenizing fails, with that error wrapped as a parse error; otherwise it returns a new compiled expression of the text |
| Compiled.ParseErrorsAreCharacters | math-parser.js:256-260 | the outcome is a parse error exactly when tokenizing fails; that never happens when the text has only whitespace, digits, letters, operators and commas, and the reported character occurs in the text |
| Compiled.ExampleEvaluation | math-parser.js:99-247 | the tokens of `2*x+3` evaluate to 13 when `x` is 5 |
| Compiled.OutcomeExample | math-parser.js:250-278 | compiling `2*x+3` and evaluating it with `x` = 5 gives 13 |
| Normalize.Pass | grapher.js:368-381 | one global regular-expression replace: a `*` goes between each left-to-right, non-overlapping pair of characters that the rule matches. `Normalize.PassInsertsStars` relates it to the reference |
| Normalize.NormalizeExpression | grapher.js:362-384 | the four passes, in the source's order: digit before a letter or `(`, `)` before a digit, `)` before a letter, `)` before `(`. `Normalize.NormalizeInsertsStars` proves it equal to the reference |
| Normalize.InsertStars | grapher.js:368-381 | the reference definition: one `*` between each adjacent pair that any of the given rules matches, and nothing else changed |
| Normalize.AllRulesFire | grapher.js:368-377 | a pair of characters gets a `*` between them exactly when it is a digit then a letter or `(`, or a `)` then a digit, letter or `(` |
| Normalize.AllRulesStarInert | grapher.js:368-377 | no rule fires on a pair that involves `*`, so an inserted `*` never triggers a later rule |
| Normalize.InsertStarsHead | grapher.js:368-377 | inserting stars keeps the first character |
| Normalize.NoChainedMatch | grapher.js:368-377 | a character that ends a match of a rule cannot start another match of that rule, so resuming a global replace after the match loses nothing |
| Normalize.PassInsertsStars | grapher.js:368-377 | one global replace inserts a `*` inside every matching pair of the input |
| Normalize.InsertStarsCompose | grapher.js:368-377 | applying one more rule after a set of rules is the same as applying the larger set at once |
| Normalize.NormalizeInsertsStars | grapher.js:362-384 | the four passes insert a `*` inside every pair that some rule matches, and change nothing else |
| Normalize.InsertStarsOnlyStars | grapher.js:368-377 | inserting stars removes nothing: without its `*`s the result is the input without its `*`s, and it is no shorter |
| Normalize.NormalizeOnlyInsertsStars | grapher.js:362-384 | normalizing only inserts `*`s: deleting every `*` from the input and from the output gives the same text |
| Normalize.InsertStarsSplit | grapher.js:368-377 | the result on a concatenation is the results on the two parts, joined with a `*` when the pair across the join fires |
| Normalize.CallsNotRewritten | grapher.js:379-381 | a letter followed by `(`, as in `sin(`, gets no `*` |
| Normalize.ImplicitProductsSeparated | grapher.js:366-377 | at a digit then a letter or `(`, or a `)` then a digit, letter or `(`, the result is the two normalized parts joined by `*` |
| Normalize.InsertStarsUnchanged | grapher.js:368-377 | the text is left unchanged exactly when no pair in it matches a rule |
| Normalize.InsertStarsSaturates | grapher.js:368-377 | after the insertion no pair matches any rule |
| Normalize.NormalizeIdempotent | grapher.js:362-384 | normalizing twice is normalizing once |
| Normalize.NormalizeProductExample | grapher.js:366-381 | `2x` becomes `2*x` |
| Normalize.NormalizeCallExample | grapher.js:366-381 | `sin(x)` is unchanged |
| Features.Step | grapher.js:413-415 | the sample step: the x range divided by 1000 samples |
| Features.Centre | grapher.js:418-419 | the `i`-th sample centre, `xMin + i * step` |
| Features.Probe | grapher.js:418-425 | sample `i` is classified from the values half a step left of its centre, at it, and half a step right of it |
| Features.Classify | grapher.js:427-466 | the two tests of one sample, in the source's order: around an undefined centre, a vertical on a strict sign change or a jump over 1.5 view heights, else a hole at the average for a jump under half a view height and an average within five view heights; at a defined centre beyond 100 view heights, a vertical on a strict sign change beside it |
| Features.Verticals | grapher.js:418-467 | the verticals of the first `n` samples, in sample order, each at its centre. `FeaturesProperties.VerticalsAt` states exactly where they are |
| Features.Holes | grapher.js:418-467 | the holes of the first `n` samples, in sample order, each at its centre and the neighbours' average. `FeaturesProperties.HolesAt` states exactly where they are |
| Features.Horizontals | grapher.js:469-491 | the horizontal candidates from the two far samples, under the 1000 and 0.1 thresholds, with a missing left sample counting as 0 |
| Features.Threshold | grapher.js:498 | the vertical duplicate distance: 2% of the x range |
| Features.Duplicates | grapher.js:502-509 | two features duplicate each other when they are of the same type and closer than the threshold (verticals) or than 0.5 (horizontals) |
| Features.Dedup | grapher.js:497-517 | the greedy scan that keeps each feature unless it duplicates one already kept. `FeaturesProperties.DedupSubsequence`, `DedupPrefix`, `DedupCovers` and `DedupSeparated` state its properties |
| Features.DetectedAsymptotes | grapher.js:409-495 | the asymptotes detection leaves: the verticals of all 1000 samples followed by the horizontal candidates, deduplicated |
| Features.DetectedHoles | grapher.js:409-495 | the holes detection leaves: those of all 1000 samples, not deduplicated |
| Features.SignChangeIsNegativeProduct | grapher.js:430 | a sign change is two strictly opposite signs, that is, a negative product; a zero is never part of one |
| FeaturesProperties.OnlyTwoShapesDetect | grapher.js:427-466 | a sample yields a feature only when it is undefined at the centre but defined on both sides, or defined at all three points with a centre value above 100 times the y range |
| FeaturesProperties.DefinedPoleNeedsSignChange | grapher.js:452-466 | a vertical asymptote at a defined centre needs a non-zero centre value with a strict sign change on one side |
| FeaturesProperties.OppositeSignsArePole | grapher.js:428-439 | undefined at the centre with strictly opposite signs on the two sides is always a vertical asymptote |
| FeaturesProperties.UndefinedCentrePole | grapher.js:428-439 | at an undefined centre with both sides defined, a vertical asymptote is reported exactly when the sides change sign strictly or differ by more than 1.5 view heights |
| FeaturesProperties.DefinedCentrePole | grapher.js:452-466 | at a defined centre, a vertical asymptote is reported exactly when the centre value exceeds 100 view heights in size and changes sign strictly against one of its neighbours |
| FeaturesProperties.GapConditions | grapher.js:440-448 | a hole has an undefined centre and defined sides with no sign change, a jump under half the y range, and a y that is the sides' average and under 5 times the y range in size |
| FeaturesProperties.RemovableDiscontinuity | grapher.js:440-448 | equal values on both sides of an undefined centre give a hole at that value when it is under 5 times the y range, and nothing otherwise |
| FeaturesProperties.CentresInView | grapher.js:413-419 | every sample centre lies in `[xMin, xMax)` |
| FeaturesProperties.VerticalsAt | grapher.js:418-467 | a vertical asymptote is in the scan's result exactly when some sample centre was classified as one, in both directions |
| FeaturesProperties.HolesAt | grapher.js:418-467 | a hole is in the scan's result exactly when some sample centre was classified as that hole, in both directions |
| FeaturesProperties.VerticalsIncreasing | grapher.js:418-467 | the scan finds at most one vertical asymptote per sample; they come out in strictly increasing x and lie before the next centre |
| FeaturesProperties.VerticalsAndHolesDisjoint | grapher.js:427-466 | no x carries both a vertical asymptote and a hole |
| FeaturesProperties.CentreInjective | grapher.js:419 | distinct samples have distinct centres |
| FeaturesProperties.HorizontalsShape | grapher.js:469-491 | at most two horizontal candidates, each under 1000 in size, and two only when they differ by more than 0.1 |
| FeaturesProperties.RightNearZeroDropped | grapher.js:481-485 | with the left value undefined, a right value within 0.1 of zero is dropped, because `leftY` counts as 0 |
| FeaturesProperties.DedupSubsequence | grapher.js:497-517 | deduplication returns a subsequence of its input, in the input's order |
| FeaturesProperties.DedupKeepsFirst | grapher.js:497-517 | the first asymptote is always kept |
| FeaturesProperties.DedupPrefix | grapher.js:497-517 | deduplicating a prefix of the input gives a prefix of the result: a later asymptote never changes what was kept before it |
| FeaturesProperties.DedupCovers | grapher.js:501-514 | the first occurrence wins: each input asymptote is either duplicated by one kept before it, or kept, directly after the ones kept before it |
| FeaturesProperties.DedupSeparated | grapher.js:497-517 | no two kept asymptotes duplicate each other |
| FeaturesProperties.DedupOfSeparated | grapher.js:497-517 | an input with no duplicates comes back unchanged |
| FeaturesProperties.DedupIdempotent | grapher.js:497-517 | deduplicating twice is deduplicating once |
| FeaturesProperties.DedupTypesIndependent | grapher.js:502-509 | vertical and horizontal asymptotes never suppress each other: deduplicating and then keeping one type is keeping that type and then deduplicating |
| Graphing.Sample | grapher.js:396-407 | `evaluateFunction`: no expression, an evaluation failure or a non-finite value is `null`; otherwise the value. `Graphing.SampleDefined` and `Graphing.SampleUndefined` state both directions |
| Graphing.PlotFunction.constructor | grapher.js:140-148 | a function entry starts with no asymptotes and no holes; its compiled expression is a parameter, because `updateFunction` sets it and is not part of this model |
| Graphing.SampleDefined | grapher.js:396-407 | the sample is a number exactly when the function compiled and its evaluation at `x` returned that finite number |
| Graphing.SampleUndefined | grapher.js:396-407 | the sample is undefined exactly when nothing compiled, evaluation failed, or the result was not finite |
| Graphing.Grapher.constructor | grapher.js:12-20 | the view starts as `[-10, 10] × [-10, 10]`, with no pan in progress and the pan position at 0 |
| Graphing.Grapher.EvaluateFunction | grapher.js:396-407 | the method returns the sample the function defines at `x` |
| Graphing.Grapher.IsDuplicate | grapher.js:502-509 | the `some` loop finds a duplicate exactly when an already kept asymptote duplicates the candidate |
| Graphing.Grapher.DeduplicateAsymptotes | grapher.js:497-517 | the loop returns the deduplication of its input at 2% of the current x range |
| Graphing.Grapher.ClassifySample | grapher.js:427-466 | the branch code yields the classification of the three values under the current view |
| Graphing.Grapher.ProbeAll | grapher.js:410-467 | the features are cleared, then the loop over the 1000 samples leaves exactly the verticals and the holes of all of them, in sample order |
| Graphing.Grapher.ProbeKind | grapher.js:413-425 | `x` is the `i`-th centre `xMin + i * step`, and the kind is the classification of the samples half a step left of it, at it and half a step right of it |
| Graphing.Grapher.ProbeCentre | grapher.js:418-467 | one iteration pushes a vertical asymptote at centre `i` when it is a pole, a hole when it is a gap, and nothing otherwise |
| Graphing.Grapher.DetectHorizontals | grapher.js:469-491 | the horizontal candidates drawn from the samples 100 units left and right of the window are appended after the verticals, and nothing else changes |
| Graphing.Grapher.AddHorizontals | grapher.js:473-491 | the left sample is pushed when it is defined and under 1000 in size; the right one when it is defined, under 1000 and more than 0.1 away from the left one (0 standing in for a missing left); the holes and the expression are unchanged |
| Graphing.Grapher.DetectAsymptotesAndHoles | grapher.js:409-495 | the old features are dropped; the asymptotes become the deduplicated verticals and horizontals of the scan; the holes are the scan's holes, in order and not deduplicated |
| Graphing.Grapher.HandlePan | grapher.js:841-866 | without a pan in progress nothing changes; during a pan the view becomes the pan shift of the old view by the pointer's movement, and the pointer position is remembered |
| Coordinates.XToPixel | grapher.js:793-796 | `xToPixel`: the offset from `xMin` as a fraction of the x range, times the width |
| Coordinates.YToPixel | grapher.js:798-801 | `yToPixel`: the height minus the offset from `yMin` as a fraction of the y range times the height, so y grows upwards |
| Coordinates.PixelToX | grapher.js:803-806 | `pixelToX`: `xMin` plus the pixel as a fraction of the width times the x range |
| Coordinates.PixelToY | grapher.js:808-811 | `pixelToY`: `yMin` plus the distance from the bottom as a fraction of the height times the y range |
| Coordinates.XToPixelValue | grapher.js:793-796 | on a nonempty x range, `xToPixel(x)` is the finite number `(x - xMin) / (xMax - xMin) * width` |
| Coordinates.YToPixelValue | grapher.js:798-801 | on a nonempty y range, `yToPixel(y)` is the finite number `height - (y - yMin) / (yMax - yMin) * height` |
| Coordinates.PixelToXValue | grapher.js:803-806 | at a nonzero width, `pixelToX(px)` is the finite number `xMin + px / width * (xMax - xMin)` |
| Coordinates.PixelToYValue | grapher.js:808-811 | at a nonzero height, `pixelToY(py)` is the finite number `yMin + (height - py) / height * (yMax - yMin)` |
| Coordinates.OrFallback | grapher.js:794 | the drawing width is the display width, or the canvas width when the display width is zero; it is zero only when both are |
| Coordinates.XRoundTrip | grapher.js:793-806 | with a non-empty x range and a non-zero width, graph to pixel and back, and pixel to graph and back, are both the identity |
| Coordinates.YRoundTrip | grapher.js:798-811 | the same for y and the height |
| Coordinates.Corners | grapher.js:793-801 | `xMin` and `xMax` go to the left and right edges; `yMax` goes to the top row and `yMin` to the bottom one |
| Coordinates.Degenerate | grapher.js:793-806 | an empty x range gives no finite pixel (NaN for `xMin` itself, which is `0/0`), and a zero width gives no finite coordinate |
| Coordinates.Monotone | grapher.js:793-801 | a larger x lies further right, and a larger y lies higher up |
| Coordinates.Pan | grapher.js:847-859 | panning keeps the drawing size |
| Coordinates.PanKeepsRanges | grapher.js:850-859 | panning shifts both bounds of each axis by the same amount, so both ranges are unchanged |
| Coordinates.PanKeepsGrabbedPoint | grapher.js:841-859 | the graph point under the pointer before the move is under it after the move |

## Left out

- Canvas drawing, DOM rendering, event wiring, the tooltip and the view inputs are user interface with nothing to state. `startPan` and `endPan` only set the flag and position that `Grapher.HandlePan` reads.
- `updateFunction`, which trims the input, normalizes it, compiles it and writes HTML, is not part of this model. Its parts are modelled separately: `Normalize.NormalizeExpression`, `Compiled.Compile` and `Graphing.Grapher.DetectAsymptotesAndHoles`.
- `getGridStep` and `handleZoom` are not part of this model. They depend on IEEE rounding of `Math.log10` and `Math.pow` and read the canvas geometry.
- IEEE-754 arithmetic is modelled only in its special values:
  - finite results are exact reals;
  - rounding and overflow to Infinity are not modelled;
  - there is no negative zero.
- `parseFloat` is exact over the reals: it reads the decimal value of the longest valid prefix, with no rounding.
- What `Math.sin`, `Math.pow` and the other registry routines compute is a parameter of the model, not a definition.
- Object-prototype quirks in the name lookups are not modelled. An example is an inherited name such as `constructor` resolving as a constant. The registries are finite maps over the listed names.
- Error message texts are not modelled, only the error kinds.
- The first pass of `normalizeExpression`, which replaces `^` with `^`, is the identity and is left out.
- Numeric.Div: with no negative zero, a zero divisor counts as +0, so `x / -0` gives the infinity of the sign of `x`, where JavaScript gives the opposite one. For the same reason, `x / -Infinity` is 0 rather than -0. The result differs only in the sign of an infinity or of a zero. That sign can still reach a finite result through a registry routine such as `atan`.
- Graphing.Grapher.HandlePan: requires a non-zero width and height while panning. The bounds are reals, and JavaScript would divide by zero and store Infinity or NaN in them.
- EvaluatorFacts.CallOperand: requires that the argument does not start with a token whose value is `)`. The tokenizer never produces such an argument, and the evaluator would read the call as having no arguments.
