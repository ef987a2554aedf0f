/** `CompiledExpression` and `math.compile`: an expression is tokenized
    once, when it is compiled, and its tokens are then evaluated against
    any number of variable bindings. */
module Compiled {
  import opened Wrappers
  import opened Numeric
  import opened Registry
  import opened Tokenizer
  import opened Evaluator
  import opened EvaluatorProperties
  import opened EvaluatorFacts
  import TokenizerProperties

  /** The two wrapped errors: `Parse error: ...` from compiling and
      `Evaluation error: ...` from evaluating. */
  datatype Failure = ParseError(lexError: LexError) | EvaluationError(evalError: EvalError)

  /** What `evaluate` returns for a token sequence: the evaluator's value,
      or its error wrapped as an evaluation error. */
  function EvaluateTokens(lib: MathLib, vars: map<string, Num>, tokens: seq<Token>): (r: Result<Num, Failure>)
    ensures r.Err? ==> r.error.EvaluationError?
    ensures r.Ok? <==> Evaluation(Scope(lib, vars), tokens).Ok?
  {
    match Evaluation(Scope(lib, vars), tokens)
    case Err(e) => Err(EvaluationError(e))
    case Ok(v) => Ok(v)
  }

  /** `math.compile(expression).evaluate(vars)`, start to finish. */
  function Outcome(lib: MathLib, expression: string, vars: map<string, Num>): Result<Num, Failure> {
    match Lex(expression)
    case Err(e) => Err(ParseError(e))
    case Ok(tokens) => EvaluateTokens(lib, vars, tokens)
  }

  class CompiledExpression {
    const expression: string
    const lib: MathLib
    const tokens: seq<Token>

    /** The tokens are those of the expression. */
    predicate Valid() {
      Lex(expression) == Ok(tokens)
    }

    constructor (expression: string, lib: MathLib, tokens: seq<Token>)
      requires Lex(expression) == Ok(tokens)
      ensures this.expression == expression && this.lib == lib && this.tokens == tokens
      ensures Valid()
    {
      this.expression := expression;
      this.lib := lib;
      this.tokens := tokens;
    }

    /** `evaluate(variables)`: evaluates a copy of the stored tokens, so
        evaluation never changes the compiled expression. */
    method Evaluate(vars: map<string, Num>) returns (r: Result<Num, Failure>)
      requires Valid()
      ensures r == Outcome(lib, expression, vars)
    {
      var v := Evaluator.Evaluate(lib, vars, tokens);
      match v
      case Err(e) => r := Err(EvaluationError(e));
      case Ok(x) => r := Ok(x);
    }
  }

  /** `math.compile(expression)`, which is `new MathParser().parse(expression)`:
      the expression is tokenized, and a tokenizer error is reported as a
      parse error. */
  method Compile(lib: MathLib, expression: string) returns (r: Result<CompiledExpression, Failure>)
    ensures r.Err? <==> Lex(expression).Err?
    ensures r.Err? ==> r.error == ParseError(Lex(expression).error)
    ensures r.Ok? ==> fresh(r.value) && r.value.Valid()
                      && r.value.expression == expression && r.value.lib == lib
  {
    var t := Tokenize(expression);
    match t
    case Err(e) => r := Err(ParseError(e));
    case Ok(tokens) =>
      var c := new CompiledExpression(expression, lib, tokens);
      r := Ok(c);
  }

  /** Compiling fails only on a character the tokenizer does not accept,
      and then the outcome is a parse error naming a character of the
      expression. */
  lemma ParseErrorsAreCharacters(lib: MathLib, expression: string, vars: map<string, Num>)
    ensures Outcome(lib, expression, vars).Err? && Outcome(lib, expression, vars).error.ParseError?
        <==> Lex(expression).Err?
    ensures (forall k :: 0 <= k < |expression| ==> IsAccepted(expression[k]))
        ==> !(Outcome(lib, expression, vars).Err? && Outcome(lib, expression, vars).error.ParseError?)
    ensures Outcome(lib, expression, vars).Err? && Outcome(lib, expression, vars).error.ParseError?
        ==> Outcome(lib, expression, vars).error.lexError.c in expression
  {
    if forall k :: 0 <= k < |expression| ==> IsAccepted(expression[k]) {
      TokenizerProperties.LexAccepts(expression);
    }
    if Lex(expression).Err? {
      TokenizerProperties.LexErrorCharacter(expression);
    }
  }

  /** The tokens of `2*x+3` at `x = 5` evaluate to 13. */
  lemma ExampleEvaluation(lib: MathLib)
    ensures Evaluation(Scope(lib, map["x" := Finite(5.0)]),
                       [Number(2.0), Operator('*'), Identifier("x"), Operator('+'), Number(3.0)])
         == Ok(Finite(13.0))
  {
    var sc := Scope(lib, map["x" := Finite(5.0)]);
    NumberOperand(sc, 2.0);
    NumberOperand(sc, 3.0);
    VariableOperand(sc, "x");
    Precedence(sc, [Number(2.0)], '*', [Identifier("x")], '+', [Number(3.0)]);
    assert Apply(lib, '*', Finite(2.0), Finite(5.0)) == Finite(10.0);
    assert Apply(lib, '+', Finite(10.0), Finite(3.0)) == Finite(13.0);
    assert [Number(2.0)] + [Operator('*')] + [Identifier("x")] + [Operator('+')] + [Number(3.0)]
        == [Number(2.0), Operator('*'), Identifier("x"), Operator('+'), Number(3.0)];
  }

  /** `math.compile("2*x+3").evaluate({x: 5})` is 13. */
  lemma OutcomeExample(lib: MathLib)
    ensures Outcome(lib, "2*x+3", map["x" := Finite(5.0)]) == Ok(Finite(13.0))
  {
    TokenizerProperties.LexExample();
    ExampleEvaluation(lib);
  }
}
