/** Operands, identifier resolution, structural errors and trailing tokens
    of `MathParser.evaluate`. */
module EvaluatorFacts {
  import opened Wrappers
  import opened Numeric
  import opened Registry
  import opened Tokenizer
  import opened Evaluator
  import opened EvaluatorExtension
  import opened EvaluatorProperties

  /** An error in the first operand is the error of the whole expression. */
  lemma UnaryErrorPropagates(sc: Scope, T: seq<Token>)
    requires Unary(sc, T).Err?
    ensures Evaluation(sc, T) == Err(Unary(sc, T).error)
  {
    var e := Unary(sc, T).error;
    assert Power(sc, T) == Err(e);
    assert MulDiv(sc, T) == Err(e);
    assert AddSub(sc, T) == Err(e);
  }

  /** Without a leading sign, the first operand is a primary. */
  lemma UnsignedIsPrimary(sc: Scope, T: seq<Token>)
    requires !StartsWithOp(T, '+') && !StartsWithOp(T, '-')
    ensures Unary(sc, T) == Primary(sc, T)
  {
  }

  /** A whole expression that is a single operand evaluates to it. */
  lemma OperandEvaluation(sc: Scope, A: seq<Token>)
    requires IsOperand(sc, A)
    ensures Evaluation(sc, A) == Ok(OperandValue(sc, A))
  {
    assert A + [] == A;
    PowerOfOperand(sc, A, []);
    EvaluationOfProduct(sc, A, OperandValue(sc, A));
  }

  /** A number token is an operand worth its value. */
  lemma NumberOperand(sc: Scope, v: real)
    ensures IsOperand(sc, [Number(v)]) && OperandValue(sc, [Number(v)]) == Finite(v)
  {
    assert [Number(v)][1..] == [];
    UnsignedIsPrimary(sc, [Number(v)]);
  }

  /** A leading `-` negates the operand after it and a leading `+` keeps
      it, so signs stack: `--x` is `x`. */
  lemma SignedOperand(sc: Scope, s: char, A: seq<Token>)
    requires s == '+' || s == '-'
    requires IsOperand(sc, A)
    ensures IsOperand(sc, [Operator(s)] + A)
    ensures OperandValue(sc, [Operator(s)] + A)
         == if s == '-' then Neg(OperandValue(sc, A)) else OperandValue(sc, A)
  {
    assert ([Operator(s)] + A)[1..] == A;
  }

  lemma DoubleNegation(sc: Scope, A: seq<Token>)
    requires IsOperand(sc, A)
    ensures Evaluation(sc, [Operator('-'), Operator('-')] + A) == Ok(OperandValue(sc, A))
  {
    SignedOperand(sc, '-', A);
    SignedOperand(sc, '-', [Operator('-')] + A);
    assert [Operator('-')] + ([Operator('-')] + A) == [Operator('-'), Operator('-')] + A;
    NegNeg(OperandValue(sc, A));
    OperandEvaluation(sc, [Operator('-'), Operator('-')] + A);
  }

  /** A sign binds tighter than `^`: `-A ^ B` is `(-A) ^ B`. */
  lemma SignBindsTighterThanPower(sc: Scope, A: seq<Token>, B: seq<Token>)
    requires IsOperand(sc, A) && IsOperand(sc, B)
    ensures Evaluation(sc, [Operator('-')] + A + [Operator('^')] + B)
         == Ok(sc.lib.pow(Neg(OperandValue(sc, A)), OperandValue(sc, B)))
  {
    var NA := [Operator('-')] + A;
    SignedOperand(sc, '-', A);
    assert B + [] == B;
    PowerOfPair(sc, NA, B, []);
    assert [Operator('-')] + A + [Operator('^')] + B == NA + ([Operator('^')] + (B + []));
    var v := sc.lib.pow(Neg(OperandValue(sc, A)), OperandValue(sc, B));
    assert MulDiv(sc, NA + ([Operator('^')] + (B + []))) == Ok(Parsed(v, []));
    EvaluationOfProduct(sc, NA + ([Operator('^')] + (B + [])), v);
  }

  /** A parenthesised complete expression is an operand worth the
      expression's value. */
  lemma GroupOperand(sc: Scope, E: seq<Token>)
    requires AddSub(sc, E).Ok? && AddSub(sc, E).value.rest == []
    ensures IsOperand(sc, [Operator('(')] + E + [Operator(')')])
    ensures OperandValue(sc, [Operator('(')] + E + [Operator(')')]) == AddSub(sc, E).value.value
  {
    var G := [Operator('(')] + E + [Operator(')')];
    assert G[1..] == E + [Operator(')')];
    AddSubExtends(sc, E, [Operator(')')]);
    assert [] + [Operator(')')] == [Operator(')')];
  }

  /** A one-argument call of a registered function is an operand worth
      the function applied to the argument's value. */
  lemma CallOperand(sc: Scope, name: string, E: seq<Token>)
    requires name in Functions
    requires AddSub(sc, E).Ok? && AddSub(sc, E).value.rest == []
    requires !StartsWithClose(E)
    ensures IsOperand(sc, [Identifier(name), Operator('(')] + E + [Operator(')')])
    ensures OperandValue(sc, [Identifier(name), Operator('(')] + E + [Operator(')')])
         == Call(sc.lib, Functions[name], [AddSub(sc, E).value.value])
  {
    var K := [Identifier(name), Operator('(')] + E + [Operator(')')];
    assert K[1..][0] == Operator('(');
    assert K[2..] == E + [Operator(')')];
    AddSubExtends(sc, E, [Operator(')')]);
    assert [] + [Operator(')')] == [Operator(')')];
    assert ArgList(sc, K[2..]) == Ok(ParsedArgs([AddSub(sc, E).value.value], [Operator(')')]));
  }

  /** A two-argument call such as `logb(b, x)`: arguments are separated
      by a comma and passed in order. */
  lemma CallOperand2(sc: Scope, name: string, E1: seq<Token>, E2: seq<Token>)
    requires name in Functions
    requires AddSub(sc, E1).Ok? && AddSub(sc, E1).value.rest == []
    requires AddSub(sc, E2).Ok? && AddSub(sc, E2).value.rest == []
    requires !StartsWithClose(E1)
    ensures IsOperand(sc, [Identifier(name), Operator('(')] + E1 + [Comma] + E2 + [Operator(')')])
    ensures OperandValue(sc, [Identifier(name), Operator('(')] + E1 + [Comma] + E2 + [Operator(')')])
         == Call(sc.lib, Functions[name], [AddSub(sc, E1).value.value, AddSub(sc, E2).value.value])
  {
    var v1, v2 := AddSub(sc, E1).value.value, AddSub(sc, E2).value.value;
    var K := [Identifier(name), Operator('(')] + E1 + [Comma] + E2 + [Operator(')')];
    var close := [Operator(')')];
    var tail := [Comma] + (E2 + close);
    assert K[1..][0] == Operator('(');
    assert K[2..] == E1 + tail;
    assert AddSub(sc, E1 + tail) == Ok(Parsed(v1, tail)) by {
      AddSubExtends(sc, E1, tail);
      assert [] + tail == tail;
    }
    assert ArgsRest(sc, [v1], tail) == Ok(ParsedArgs([v1, v2], close)) by {
      assert AddSub(sc, tail[1..]) == Ok(Parsed(v2, close)) by {
        AddSubExtends(sc, E2, close);
        assert [] + close == close;
        assert tail[1..] == E2 + close;
      }
      assert tail[0] == Comma;
      assert [v1] + [v2] == [v1, v2];
      assert ArgsRest(sc, [v1, v2], close) == Ok(ParsedArgs([v1, v2], close));
    }
    assert ArgList(sc, K[2..]) == Ok(ParsedArgs([v1, v2], close));
  }

  /** `name()`: no arguments; a registered function is called with none,
      any other name is an unknown function. */
  lemma EmptyCall(sc: Scope, name: string)
    ensures Evaluation(sc, [Identifier(name), Operator('('), Operator(')')])
         == if name in Functions then Ok(Call(sc.lib, Functions[name], [])) else Err(UnknownFunction(name))
  {
    var K := [Identifier(name), Operator('('), Operator(')')];
    assert K[1..][0] == Operator('(');
    assert K[2..] == [Operator(')')];
    assert ArgList(sc, K[2..]) == Ok(ParsedArgs([], [Operator(')')]));
    UnsignedIsPrimary(sc, K);
    if name in Functions {
      assert IsOperand(sc, K);
      OperandEvaluation(sc, K);
    } else {
      assert Unary(sc, K) == Err(UnknownFunction(name));
      UnaryErrorPropagates(sc, K);
    }
  }

  /** A call of an unregistered name fails as an unknown function, but
      only once its arguments have parsed and its `)` was found. */
  lemma UnknownFunctionAfterArguments(sc: Scope, name: string, E: seq<Token>)
    requires name !in Functions
    requires AddSub(sc, E).Ok? && AddSub(sc, E).value.rest == []
    requires !StartsWithClose(E)
    ensures Evaluation(sc, [Identifier(name), Operator('(')] + E + [Operator(')')]) == Err(UnknownFunction(name))
  {
    var K := [Identifier(name), Operator('(')] + E + [Operator(')')];
    assert K[1..][0] == Operator('(');
    assert K[2..] == E + [Operator(')')];
    AddSubExtends(sc, E, [Operator(')')]);
    assert [] + [Operator(')')] == [Operator(')')];
    assert ArgList(sc, K[2..]) == Ok(ParsedArgs([AddSub(sc, E).value.value], [Operator(')')]));
    UnsignedIsPrimary(sc, K);
    assert Unary(sc, K) == Err(UnknownFunction(name));
    UnaryErrorPropagates(sc, K);
  }

  /** An argument list that runs to the end of the input is a missing
      parenthesis, whether or not the name is registered. */
  lemma UnclosedCall(sc: Scope, name: string, E: seq<Token>)
    requires AddSub(sc, E).Ok? && AddSub(sc, E).value.rest == []
    requires !StartsWithClose(E)
    ensures Evaluation(sc, [Identifier(name), Operator('(')] + E) == Err(MissingParenthesis)
  {
    var K := [Identifier(name), Operator('(')] + E;
    assert K[1..][0] == Operator('(');
    assert K[2..] == E;
    assert ArgList(sc, K[2..]) == Ok(ParsedArgs([AddSub(sc, E).value.value], []));
    UnsignedIsPrimary(sc, K);
    assert Unary(sc, K) == Err(MissingParenthesis);
    UnaryErrorPropagates(sc, K);
  }

  /** A group that runs to the end of the input is a missing parenthesis. */
  lemma UnclosedGroup(sc: Scope, E: seq<Token>)
    requires AddSub(sc, E).Ok? && AddSub(sc, E).value.rest == []
    ensures Evaluation(sc, [Operator('(')] + E) == Err(MissingParenthesis)
  {
    var K := [Operator('(')] + E;
    assert K[1..] == E;
    UnsignedIsPrimary(sc, K);
    assert Unary(sc, K) == Err(MissingParenthesis);
    UnaryErrorPropagates(sc, K);
  }

  /** Nothing to parse: the end of the expression comes too early. */
  lemma EmptyInput(sc: Scope)
    ensures Evaluation(sc, []) == Err(UnexpectedEnd)
  {
  }

  /** An operator with no right operand. */
  lemma DanglingOperator(sc: Scope, A: seq<Token>, o: char)
    requires IsOperand(sc, A) && IsBinaryOp(o)
    ensures Evaluation(sc, A + [Operator(o)]) == Err(UnexpectedEnd)
  {
    var a := OperandValue(sc, A);
    OperandThen(sc, A, [Operator(o)]);
    assert [Operator(o)][1..] == [];
    assert Unary(sc, []) == Err(UnexpectedEnd);
    assert Power(sc, []) == Err(UnexpectedEnd);
    assert MulDiv(sc, []) == Err(UnexpectedEnd);
    if o == '^' {
      assert Power(sc, A + [Operator(o)]) == Err(UnexpectedEnd);
      assert MulDiv(sc, A + [Operator(o)]) == Err(UnexpectedEnd);
    } else if o == '*' || o == '/' {
      assert Power(sc, A + [Operator(o)]) == Ok(Parsed(a, [Operator(o)]));
      assert MulDiv(sc, A + [Operator(o)]) == Err(UnexpectedEnd);
    } else {
      assert Power(sc, A + [Operator(o)]) == Ok(Parsed(a, [Operator(o)]));
      assert MulDiv(sc, A + [Operator(o)]) == Ok(Parsed(a, [Operator(o)]));
      assert AddSubRest(sc, a, [Operator(o)]) == Err(UnexpectedEnd);
    }
  }

  /** An expression cannot start with `)`, `*`, `/`, `^` or a comma. */
  lemma UnexpectedFirstToken(sc: Scope, t: Token, R: seq<Token>)
    requires t == Comma || t == Operator(')') || t == Operator('*') || t == Operator('/') || t == Operator('^')
    ensures Evaluation(sc, [t] + R) == Err(UnexpectedToken(t))
  {
    var K := [t] + R;
    assert K[0] == t;
    UnsignedIsPrimary(sc, K);
    assert Unary(sc, K) == Err(UnexpectedToken(t));
    UnaryErrorPropagates(sc, K);
  }

  /** The constants `pi` and `e` win over variables of the same name. */
  lemma ConstantsShadowVariables(sc: Scope, name: string)
    requires name == "pi" || name == "e"
    ensures Evaluation(sc, [Identifier(name)])
         == Ok(Finite(if name == "pi" then sc.lib.pi else sc.lib.e))
  {
    var m := Constants(sc.lib);
    assert m.Keys == {"pi", "e"};
    assert [Identifier(name)][1..] == [];
    UnsignedIsPrimary(sc, [Identifier(name)]);
    assert IsOperand(sc, [Identifier(name)]);
    OperandEvaluation(sc, [Identifier(name)]);
  }

  /** A bound variable other than `pi` and `e` is an operand worth its
      binding. */
  lemma VariableOperand(sc: Scope, name: string)
    requires name != "pi" && name != "e" && name in sc.vars
    ensures IsOperand(sc, [Identifier(name)]) && OperandValue(sc, [Identifier(name)]) == sc.vars[name]
  {
    var m := Constants(sc.lib);
    assert name !in m;
    assert [Identifier(name)][1..] == [];
    UnsignedIsPrimary(sc, [Identifier(name)]);
  }

  /** Any other identifier not followed by `(` is looked up in the
      variables; a function name on its own is not a value. */
  lemma VariableLookup(sc: Scope, name: string)
    requires name != "pi" && name != "e"
    ensures Evaluation(sc, [Identifier(name)])
         == if name in sc.vars then Ok(sc.vars[name]) else Err(UnknownIdentifier(name))
  {
    var m := Constants(sc.lib);
    assert name !in m;
    assert [Identifier(name)][1..] == [];
    UnsignedIsPrimary(sc, [Identifier(name)]);
    if name in sc.vars {
      assert IsOperand(sc, [Identifier(name)]);
      OperandEvaluation(sc, [Identifier(name)]);
    } else {
      assert Unary(sc, [Identifier(name)]) == Err(UnknownIdentifier(name));
      UnaryErrorPropagates(sc, [Identifier(name)]);
    }
  }

  /** Tokens after a complete expression that cannot continue it are
      ignored. */
  lemma TrailingTokensIgnored(sc: Scope, A: seq<Token>, R: seq<Token>)
    requires AddSub(sc, A).Ok? && AddSub(sc, A).value.rest == []
    requires StopsAddSub(R)
    ensures Evaluation(sc, A + R) == Evaluation(sc, A)
  {
    AddSubExtends(sc, A, R);
  }

  /** `2 2` evaluates to 2, and `2 + 2 )` to 4. */
  lemma TrailingTokensExamples(sc: Scope)
    ensures Evaluation(sc, [Number(2.0), Number(2.0)]) == Ok(Finite(2.0))
    ensures Evaluation(sc, [Number(2.0), Operator('+'), Number(2.0), Operator(')')]) == Ok(Finite(4.0))
  {
    NumberOperand(sc, 2.0);
    OperandEvaluation(sc, [Number(2.0)]);
    assert [Number(2.0)] + [Number(2.0)] == [Number(2.0), Number(2.0)];
    TrailingTokensIgnored(sc, [Number(2.0)], [Number(2.0)]);
    var S := [Number(2.0), Operator('+'), Number(2.0)];
    var P := [Operator('+'), Number(2.0)];
    assert [Number(2.0)] + P == S && [Operator('+')] + [Number(2.0)] == P;
    PowerOfOperand(sc, [Number(2.0)], P);
    assert MulDiv(sc, S) == Ok(Parsed(Finite(2.0), P));
    assert [Number(2.0)] + [] == [Number(2.0)];
    PowerOfOperand(sc, [Number(2.0)], []);
    assert MulDiv(sc, [Number(2.0)]) == Ok(Parsed(Finite(2.0), []));
    AddSubRestStep(sc, Finite(2.0), '+', [Number(2.0)], Finite(2.0), []);
    assert AddSub(sc, S) == Ok(Parsed(Finite(4.0), []));
    assert S + [Operator(')')] == [Number(2.0), Operator('+'), Number(2.0), Operator(')')];
    TrailingTokensIgnored(sc, S, [Operator(')')]);
  }
}
