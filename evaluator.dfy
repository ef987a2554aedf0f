/** `MathParser.evaluate` (math-parser.js): recursive descent over the token
    sequence that computes the value while it parses.

    The functions below are the specification: each grammar level takes the
    tokens that remain and yields the value it computed together with the
    tokens it left unconsumed.  The class `Parser` is the source's own
    shape, a cursor `pos` moved forward by mutually recursive methods with
    `while` loops, and each of its methods is proved to agree with the
    function of the same level. */
module Evaluator {
  import opened Wrappers
  import opened Numeric
  import opened Registry
  import opened Tokenizer

  /** The errors the evaluator raises. */
  datatype EvalError =
    | UnexpectedEnd                   // "Unexpected end of expression"
    | MissingParenthesis              // "Missing closing parenthesis"
    | UnexpectedToken(token: Token)   // "Unexpected token: ..."
    | UnknownFunction(name: string)   // "Unknown function: ..."
    | UnknownIdentifier(name: string) // "Unknown identifier: ..."

  /** What evaluation sees: the registries' library and the variable
      bindings passed by the caller. */
  datatype Scope = Scope(lib: MathLib, vars: map<string, Num>)

  /** A value parsed at some level, and the tokens after it. */
  datatype Parsed = Parsed(value: Num, rest: seq<Token>)

  /** The arguments of a call, and the tokens after the last one. */
  datatype ParsedArgs = ParsedArgs(args: seq<Num>, rest: seq<Token>)

  /** `peek() && peek().type === "OPERATOR" && peek().value === c`. */
  predicate StartsWithOp(toks: seq<Token>, c: char) {
    |toks| > 0 && toks[0] == Operator(c)
  }

  /** The closing-parenthesis test compares only the token's value, so an
      identifier spelled `)` would pass it too. */
  predicate ClosesParen(t: Token) {
    t == Operator(')') || t == Identifier(")")
  }

  /** `peek() && peek().value === ")"`. */
  predicate StartsWithClose(toks: seq<Token>) {
    |toks| > 0 && ClosesParen(toks[0])
  }

  /** `parsePrimary`: a number, a parenthesised expression, a call, a
      constant or a variable. */
  function Primary(sc: Scope, toks: seq<Token>): (r: Result<Parsed, EvalError>)
    ensures r.Ok? ==> |r.value.rest| < |toks|
    decreases |toks|, 0
  {
    if toks == [] then Err(UnexpectedEnd)
    else match toks[0]
      case Number(v) => Ok(Parsed(Finite(v), toks[1..]))
      case Identifier(name) =>
        if StartsWithOp(toks[1..], '(') then
          match ArgList(sc, toks[2..])
          case Err(e) => Err(e)
          case Ok(a) =>
            if !StartsWithClose(a.rest) then Err(MissingParenthesis)
            else if name in Functions then Ok(Parsed(Call(sc.lib, Functions[name], a.args), a.rest[1..]))
            else Err(UnknownFunction(name))
        else if name in Constants(sc.lib) then Ok(Parsed(Constants(sc.lib)[name], toks[1..]))
        else if name in sc.vars then Ok(Parsed(sc.vars[name], toks[1..]))
        else Err(UnknownIdentifier(name))
      case Operator(c) =>
        if c == '(' then
          match AddSub(sc, toks[1..])
          case Err(e) => Err(e)
          case Ok(p) =>
            if !StartsWithClose(p.rest) then Err(MissingParenthesis)
            else Ok(Parsed(p.value, p.rest[1..]))
        else Err(UnexpectedToken(toks[0]))
      case Comma => Err(UnexpectedToken(toks[0]))
  }

  /** `parseUnary`: any number of leading signs, then a primary. */
  function Unary(sc: Scope, toks: seq<Token>): (r: Result<Parsed, EvalError>)
    ensures r.Ok? ==> |r.value.rest| < |toks|
    decreases |toks|, 1
  {
    if StartsWithOp(toks, '+') || StartsWithOp(toks, '-') then
      match Unary(sc, toks[1..])
      case Err(e) => Err(e)
      case Ok(p) => Ok(Parsed(if toks[0].op == '-' then Neg(p.value) else p.value, p.rest))
    else
      Primary(sc, toks)
  }

  /** The loop of `parsePower` after its first operand: each `^ unary`
      raises the value computed so far. */
  function PowerRest(sc: Scope, left: Num, toks: seq<Token>): (r: Result<Parsed, EvalError>)
    ensures r.Ok? ==> |r.value.rest| <= |toks|
    decreases |toks|, 2
  {
    if StartsWithOp(toks, '^') then
      match Unary(sc, toks[1..])
      case Err(e) => Err(e)
      case Ok(p) => PowerRest(sc, sc.lib.pow(left, p.value), p.rest)
    else
      Ok(Parsed(left, toks))
  }

  /** `parsePower`. */
  function Power(sc: Scope, toks: seq<Token>): (r: Result<Parsed, EvalError>)
    ensures r.Ok? ==> |r.value.rest| < |toks|
    decreases |toks|, 3
  {
    match Unary(sc, toks)
    case Err(e) => Err(e)
    case Ok(p) => PowerRest(sc, p.value, p.rest)
  }

  /** The loop of `parseMulDiv` after its first operand. */
  function MulDivRest(sc: Scope, left: Num, toks: seq<Token>): (r: Result<Parsed, EvalError>)
    ensures r.Ok? ==> |r.value.rest| <= |toks|
    decreases |toks|, 4
  {
    if StartsWithOp(toks, '*') || StartsWithOp(toks, '/') then
      match Power(sc, toks[1..])
      case Err(e) => Err(e)
      case Ok(p) =>
        MulDivRest(sc, if toks[0].op == '*' then Mul(left, p.value) else Div(left, p.value), p.rest)
    else
      Ok(Parsed(left, toks))
  }

  /** `parseMulDiv`. */
  function MulDiv(sc: Scope, toks: seq<Token>): (r: Result<Parsed, EvalError>)
    ensures r.Ok? ==> |r.value.rest| < |toks|
    decreases |toks|, 5
  {
    match Power(sc, toks)
    case Err(e) => Err(e)
    case Ok(p) => MulDivRest(sc, p.value, p.rest)
  }

  /** The loop of `parseAddSub` after its first operand. */
  function AddSubRest(sc: Scope, left: Num, toks: seq<Token>): (r: Result<Parsed, EvalError>)
    ensures r.Ok? ==> |r.value.rest| <= |toks|
    decreases |toks|, 6
  {
    if StartsWithOp(toks, '+') || StartsWithOp(toks, '-') then
      match MulDiv(sc, toks[1..])
      case Err(e) => Err(e)
      case Ok(p) =>
        AddSubRest(sc, if toks[0].op == '+' then Add(left, p.value) else Sub(left, p.value), p.rest)
    else
      Ok(Parsed(left, toks))
  }

  /** `parseAddSub`, which is also `parseExpression`. */
  function AddSub(sc: Scope, toks: seq<Token>): (r: Result<Parsed, EvalError>)
    ensures r.Ok? ==> |r.value.rest| < |toks|
    decreases |toks|, 7
  {
    match MulDiv(sc, toks)
    case Err(e) => Err(e)
    case Ok(p) => AddSubRest(sc, p.value, p.rest)
  }

  /** The comma loop of a call's argument list. */
  function ArgsRest(sc: Scope, args: seq<Num>, toks: seq<Token>): (r: Result<ParsedArgs, EvalError>)
    ensures r.Ok? ==> |r.value.rest| <= |toks| && |r.value.args| >= |args|
    decreases |toks|, 8
  {
    if |toks| > 0 && toks[0] == Comma then
      match AddSub(sc, toks[1..])
      case Err(e) => Err(e)
      case Ok(p) => ArgsRest(sc, args + [p.value], p.rest)
    else
      Ok(ParsedArgs(args, toks))
  }

  /** A call's arguments after its `(`: none when a `)` comes first,
      otherwise comma-separated expressions. */
  function ArgList(sc: Scope, toks: seq<Token>): (r: Result<ParsedArgs, EvalError>)
    ensures r.Ok? ==> |r.value.rest| <= |toks|
    decreases |toks|, 9
  {
    if !StartsWithClose(toks) then
      match AddSub(sc, toks)
      case Err(e) => Err(e)
      case Ok(p) => ArgsRest(sc, [p.value], p.rest)
    else
      Ok(ParsedArgs([], toks))
  }

  /** The value of `evaluate(tokens, variables)`: one expression is parsed
      from the start, and whatever tokens follow it are ignored. */
  function Evaluation(sc: Scope, toks: seq<Token>): Result<Num, EvalError> {
    match AddSub(sc, toks)
    case Err(e) => Err(e)
    case Ok(p) => Ok(p.value)
  }

  /** The state the closures of `evaluate` share: the tokens and the cursor
      `pos` that `peek` reads and `consume` advances. */
  class Parser {
    const scope: Scope
    const tokens: seq<Token>
    var pos: nat

    constructor (scope: Scope, tokens: seq<Token>)
      ensures this.scope == scope && this.tokens == tokens && pos == 0
    {
      this.scope := scope;
      this.tokens := tokens;
      pos := 0;
    }

    /** `peek()` is present and equals `t`. */
    predicate PeekIs(t: Token)
      reads this
    {
      pos < |tokens| && tokens[pos] == t
    }

    /** A method's result agrees with the specification `spec` of its level,
        evaluated on the tokens from where the method started: the same
        error, or the same value with the cursor where `spec` stopped. */
    ghost predicate Agrees(spec: Result<Parsed, EvalError>, r: Result<Num, EvalError>)
      reads this
    {
      pos <= |tokens| &&
      match r
      case Ok(v) => spec == Ok(Parsed(v, tokens[pos..]))
      case Err(e) => spec == Err(e)
    }

    method ParseAddSub() returns (r: Result<Num, EvalError>)
      requires pos <= |tokens|
      modifies this
      ensures Agrees(AddSub(scope, tokens[old(pos)..]), r)
      decreases |tokens| - pos, 4
    {
      var left :- ParseMulDiv();
      while PeekIs(Operator('+')) || PeekIs(Operator('-'))
        invariant old(pos) < pos <= |tokens|
        invariant AddSub(scope, tokens[old(pos)..]) == AddSubRest(scope, left, tokens[pos..])
        decreases |tokens| - pos
      {
        var op := tokens[pos].op;
        pos := pos + 1;
        assert tokens[pos - 1..][1..] == tokens[pos..];
        var right :- ParseMulDiv();
        left := if op == '+' then Add(left, right) else Sub(left, right);
      }
      return Ok(left);
    }

    method ParseMulDiv() returns (r: Result<Num, EvalError>)
      requires pos <= |tokens|
      modifies this
      ensures Agrees(MulDiv(scope, tokens[old(pos)..]), r)
      decreases |tokens| - pos, 3
    {
      var left :- ParsePower();
      while PeekIs(Operator('*')) || PeekIs(Operator('/'))
        invariant old(pos) < pos <= |tokens|
        invariant MulDiv(scope, tokens[old(pos)..]) == MulDivRest(scope, left, tokens[pos..])
        decreases |tokens| - pos
      {
        var op := tokens[pos].op;
        pos := pos + 1;
        assert tokens[pos - 1..][1..] == tokens[pos..];
        var right :- ParsePower();
        left := if op == '*' then Mul(left, right) else Div(left, right);
      }
      return Ok(left);
    }

    method ParsePower() returns (r: Result<Num, EvalError>)
      requires pos <= |tokens|
      modifies this
      ensures Agrees(Power(scope, tokens[old(pos)..]), r)
      decreases |tokens| - pos, 2
    {
      var left :- ParseUnary();
      while PeekIs(Operator('^'))
        invariant old(pos) < pos <= |tokens|
        invariant Power(scope, tokens[old(pos)..]) == PowerRest(scope, left, tokens[pos..])
        decreases |tokens| - pos
      {
        pos := pos + 1;
        assert tokens[pos - 1..][1..] == tokens[pos..];
        var right :- ParseUnary();
        left := scope.lib.pow(left, right);
      }
      return Ok(left);
    }

    method ParseUnary() returns (r: Result<Num, EvalError>)
      requires pos <= |tokens|
      modifies this
      ensures Agrees(Unary(scope, tokens[old(pos)..]), r)
      decreases |tokens| - pos, 1
    {
      if PeekIs(Operator('+')) || PeekIs(Operator('-')) {
        var op := tokens[pos].op;
        pos := pos + 1;
        assert tokens[pos - 1..][1..] == tokens[pos..];
        var value :- ParseUnary();
        return Ok(if op == '-' then Neg(value) else value);
      }
      r := ParsePrimary();
    }

    /** The argument list of a call, after its `(`: nothing when `)` comes
        first, otherwise expressions separated by commas. */
    method ParseArguments() returns (r: Result<seq<Num>, EvalError>)
      requires pos <= |tokens|
      modifies this
      ensures pos <= |tokens|
      ensures r.Ok? ==> ArgList(scope, tokens[old(pos)..]) == Ok(ParsedArgs(r.value, tokens[pos..]))
      ensures r.Err? ==> ArgList(scope, tokens[old(pos)..]) == Err(r.error)
      decreases |tokens| - pos, 5
    {
      var args: seq<Num> := [];
      if !(pos < |tokens| && ClosesParen(tokens[pos])) {
        var first :- ParseAddSub();
        args := [first];
        while PeekIs(Comma)
          invariant old(pos) < pos <= |tokens|
          invariant ArgList(scope, tokens[old(pos)..]) == ArgsRest(scope, args, tokens[pos..])
          decreases |tokens| - pos
        {
          pos := pos + 1;
          assert tokens[pos - 1..][1..] == tokens[pos..];
          var next :- ParseAddSub();
          args := args + [next];
        }
      }
      return Ok(args);
    }

    method ParsePrimary() returns (r: Result<Num, EvalError>)
      requires pos <= |tokens|
      modifies this
      ensures Agrees(Primary(scope, tokens[old(pos)..]), r)
      decreases |tokens| - pos, 0
    {
      if pos == |tokens| {
        return Err(UnexpectedEnd);
      }
      var token := tokens[pos];
      ghost var start := tokens[pos..];
      assert start[0] == token && start[1..] == tokens[pos + 1..];
      if token.Number? {
        pos := pos + 1;
        return Ok(Finite(token.value));
      }
      if token == Operator('(') {
        pos := pos + 1;
        var value :- ParseAddSub();
        if !(pos < |tokens| && ClosesParen(tokens[pos])) {
          return Err(MissingParenthesis);
        }
        pos := pos + 1;
        assert tokens[pos - 1..][1..] == tokens[pos..];
        return Ok(value);
      }
      if token.Identifier? {
        var name := token.name;
        pos := pos + 1;
        if PeekIs(Operator('(')) {
          pos := pos + 1;
          assert start[2..] == tokens[pos..];
          var args :- ParseArguments();
          ghost var a := ParsedArgs(args, tokens[pos..]);
          assert ArgList(scope, start[2..]) == Ok(a);
          assert StartsWithOp(start[1..], '(');
          if !(pos < |tokens| && ClosesParen(tokens[pos])) {
            return Err(MissingParenthesis);
          }
          pos := pos + 1;
          assert tokens[pos - 1..][1..] == tokens[pos..];
          r := CallByName(name, args);
          return;
        }
        r := ResolveName(name);
        return;
      }
      return Err(UnexpectedToken(token));
    }

    /** `this.functions[name](...args)`, or the unknown-function error. */
    method CallByName(name: string, args: seq<Num>) returns (r: Result<Num, EvalError>)
      ensures name in Functions ==> r == Ok(Call(scope.lib, Functions[name], args))
      ensures name !in Functions ==> r == Err(UnknownFunction(name))
    {
      if name in Functions {
        return Ok(Call(scope.lib, Functions[name], args));
      }
      return Err(UnknownFunction(name));
    }

    /** A name that is not called: a constant first, then a variable, or
        the unknown-identifier error. */
    method ResolveName(name: string) returns (r: Result<Num, EvalError>)
      ensures name in Constants(scope.lib) ==> r == Ok(Constants(scope.lib)[name])
      ensures name !in Constants(scope.lib) && name in scope.vars ==> r == Ok(scope.vars[name])
      ensures name !in Constants(scope.lib) && name !in scope.vars ==> r == Err(UnknownIdentifier(name))
    {
      if name in Constants(scope.lib) {
        return Ok(Constants(scope.lib)[name]);
      }
      if name in scope.vars {
        return Ok(scope.vars[name]);
      }
      return Err(UnknownIdentifier(name));
    }
  }

  /** `MathParser.evaluate(tokens, variables)`. */
  method Evaluate(lib: MathLib, vars: map<string, Num>, tokens: seq<Token>) returns (r: Result<Num, EvalError>)
    ensures r == Evaluation(Scope(lib, vars), tokens)
  {
    var parser := new Parser(Scope(lib, vars), tokens);
    assert parser.tokens[parser.pos..] == tokens;
    var value :- parser.ParseAddSub();
    return Ok(value);
  }
}
