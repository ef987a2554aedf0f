/** What `MathParser.evaluate` promises: precedence and associativity of
    the binary operators, unary signs, identifier resolution, the
    structural errors, and trailing tokens. */
module EvaluatorProperties {
  import opened Wrappers
  import opened Numeric
  import opened Registry
  import opened Tokenizer
  import opened Evaluator
  import opened EvaluatorExtension

  /** `A` is exactly one operand of a binary operator: optional signs and
      one primary, with nothing left over. */
  predicate IsOperand(sc: Scope, A: seq<Token>) {
    Unary(sc, A).Ok? && Unary(sc, A).value.rest == []
  }

  function OperandValue(sc: Scope, A: seq<Token>): Num
    requires IsOperand(sc, A)
  {
    Unary(sc, A).value.value
  }

  predicate IsBinaryOp(c: char) {
    c == '+' || c == '-' || c == '*' || c == '/' || c == '^'
  }

  /** Binding strength: `+ -` below `* /` below `^`. */
  function Level(c: char): nat
    requires IsBinaryOp(c)
  {
    if c == '+' || c == '-' then 1 else if c == '*' || c == '/' then 2 else 3
  }

  /** What a binary operator computes. */
  function Apply(lib: MathLib, c: char, a: Num, b: Num): Num
    requires IsBinaryOp(c)
  {
    match c
    case '+' => Add(a, b)
    case '-' => Sub(a, b)
    case '*' => Mul(a, b)
    case '/' => Div(a, b)
    case '^' => lib.pow(a, b)
  }

  /** An operand followed by anything that is not `(` parses as itself. */
  lemma OperandThen(sc: Scope, A: seq<Token>, S: seq<Token>)
    requires IsOperand(sc, A) && StopsPrimary(S)
    ensures Unary(sc, A + S) == Ok(Parsed(OperandValue(sc, A), S))
  {
    UnaryExtends(sc, A, S);
    assert [] + S == S;
  }

  /** One turn of the `^` loop: `^ B` raises what came before. */
  lemma PowerStep(sc: Scope, left: Num, B: seq<Token>, S: seq<Token>)
    requires IsOperand(sc, B) && StopsPrimary(S)
    ensures PowerRest(sc, left, [Operator('^')] + (B + S))
         == PowerRest(sc, sc.lib.pow(left, OperandValue(sc, B)), S)
  {
    var T := [Operator('^')] + (B + S);
    assert T[1..] == B + S;
    OperandThen(sc, B, S);
  }

  /** An operand followed by a tail that does not start with `^`. */
  lemma PowerOfOperand(sc: Scope, A: seq<Token>, S: seq<Token>)
    requires IsOperand(sc, A) && StopsPower(S)
    ensures Power(sc, A + S) == Ok(Parsed(OperandValue(sc, A), S))
  {
    OperandThen(sc, A, S);
  }

  /** `A ^ B` followed by a tail that does not start with `^`. */
  lemma PowerOfPair(sc: Scope, A: seq<Token>, B: seq<Token>, S: seq<Token>)
    requires IsOperand(sc, A) && IsOperand(sc, B) && StopsPower(S)
    ensures Power(sc, A + ([Operator('^')] + (B + S)))
         == Ok(Parsed(sc.lib.pow(OperandValue(sc, A), OperandValue(sc, B)), S))
  {
    OperandThen(sc, A, [Operator('^')] + (B + S));
    PowerStep(sc, OperandValue(sc, A), B, S);
  }

  /** `A ^ B ^ C`: the chain folds to the left. */
  lemma PowerOfTriple(sc: Scope, A: seq<Token>, B: seq<Token>, C: seq<Token>)
    requires IsOperand(sc, A) && IsOperand(sc, B) && IsOperand(sc, C)
    ensures Power(sc, A + ([Operator('^')] + (B + ([Operator('^')] + C))))
         == Ok(Parsed(sc.lib.pow(sc.lib.pow(OperandValue(sc, A), OperandValue(sc, B)), OperandValue(sc, C)), []))
  {
    var ab := sc.lib.pow(OperandValue(sc, A), OperandValue(sc, B));
    OperandThen(sc, A, [Operator('^')] + (B + ([Operator('^')] + C)));
    PowerStep(sc, OperandValue(sc, A), B, [Operator('^')] + C);
    assert C + [] == C;
    PowerStep(sc, ab, C, []);
  }

  /** One turn of the `* /` loop. */
  lemma MulDivRestStep(sc: Scope, left: Num, o: char, R: seq<Token>, x: Num, rest: seq<Token>)
    requires o == '*' || o == '/'
    requires Power(sc, R) == Ok(Parsed(x, rest))
    ensures MulDivRest(sc, left, [Operator(o)] + R) == MulDivRest(sc, Apply(sc.lib, o, left, x), rest)
  {
    assert ([Operator(o)] + R)[1..] == R;
  }

  /** One turn of the `+ -` loop. */
  lemma AddSubRestStep(sc: Scope, left: Num, o: char, R: seq<Token>, x: Num, rest: seq<Token>)
    requires o == '+' || o == '-'
    requires MulDiv(sc, R) == Ok(Parsed(x, rest))
    ensures AddSubRest(sc, left, [Operator(o)] + R) == AddSubRest(sc, Apply(sc.lib, o, left, x), rest)
  {
    assert ([Operator(o)] + R)[1..] == R;
  }

  /** A sum level that ends exactly at the end of the input. */
  lemma EvaluationOfSum(sc: Scope, T: seq<Token>, y: Num, S: seq<Token>, z: Num)
    requires MulDiv(sc, T) == Ok(Parsed(y, S))
    requires AddSubRest(sc, y, S) == Ok(Parsed(z, []))
    ensures Evaluation(sc, T) == Ok(z)
  {
  }

  /** A product level whose whole input is consumed. */
  lemma EvaluationOfProduct(sc: Scope, T: seq<Token>, x: Num)
    requires MulDiv(sc, T) == Ok(Parsed(x, []))
    ensures Evaluation(sc, T) == Ok(x)
  {
    assert AddSubRest(sc, x, []) == Ok(Parsed(x, []));
    assert AddSub(sc, T) == Ok(Parsed(x, []));
  }

  /** `A ^ B o2 C`. */
  lemma PrecedenceAfterPower(sc: Scope, A: seq<Token>, B: seq<Token>, o2: char, C: seq<Token>)
    requires IsOperand(sc, A) && IsOperand(sc, B) && IsOperand(sc, C)
    requires IsBinaryOp(o2)
    ensures
      var ab := sc.lib.pow(OperandValue(sc, A), OperandValue(sc, B));
      Evaluation(sc, A + ([Operator('^')] + (B + ([Operator(o2)] + C))))
      == Ok(Apply(sc.lib, o2, ab, OperandValue(sc, C)))
  {
    var ab := sc.lib.pow(OperandValue(sc, A), OperandValue(sc, B));
    var c := OperandValue(sc, C);
    var S2 := [Operator(o2)] + C;
    var T := A + ([Operator('^')] + (B + S2));
    assert C + [] == C;
    PowerOfOperand(sc, C, []);
    if o2 == '^' {
      PowerOfTriple(sc, A, B, C);
      assert MulDiv(sc, T) == Ok(Parsed(sc.lib.pow(ab, c), []));
      EvaluationOfProduct(sc, T, sc.lib.pow(ab, c));
    } else {
      PowerOfPair(sc, A, B, S2);
      if o2 == '*' || o2 == '/' {
        MulDivRestStep(sc, ab, o2, C, c, []);
        assert MulDiv(sc, T) == Ok(Parsed(Apply(sc.lib, o2, ab, c), []));
        EvaluationOfProduct(sc, T, Apply(sc.lib, o2, ab, c));
      } else {
        assert MulDiv(sc, T) == Ok(Parsed(ab, S2));
        assert MulDiv(sc, C) == Ok(Parsed(c, []));
        AddSubRestStep(sc, ab, o2, C, c, []);
        assert AddSubRest(sc, Apply(sc.lib, o2, ab, c), []) == Ok(Parsed(Apply(sc.lib, o2, ab, c), []));
        EvaluationOfSum(sc, T, ab, S2, Apply(sc.lib, o2, ab, c));
      }
    }
  }

  /** `A o1 B o2 C` with `o1` one of `* /`. */
  lemma PrecedenceAfterProduct(sc: Scope, A: seq<Token>, o1: char, B: seq<Token>, o2: char, C: seq<Token>)
    requires IsOperand(sc, A) && IsOperand(sc, B) && IsOperand(sc, C)
    requires (o1 == '*' || o1 == '/') && IsBinaryOp(o2)
    ensures
      var a, b, c := OperandValue(sc, A), OperandValue(sc, B), OperandValue(sc, C);
      Evaluation(sc, A + ([Operator(o1)] + (B + ([Operator(o2)] + C))))
      == Ok(if o2 == '^' then Apply(sc.lib, o1, a, sc.lib.pow(b, c))
            else Apply(sc.lib, o2, Apply(sc.lib, o1, a, b), c))
  {
    var a, b, c := OperandValue(sc, A), OperandValue(sc, B), OperandValue(sc, C);
    var S2 := [Operator(o2)] + C;
    var S1 := [Operator(o1)] + (B + S2);
    var T := A + S1;
    assert C + [] == C;
    PowerOfOperand(sc, C, []);
    PowerOfOperand(sc, A, S1);
    if o2 == '^' {
      PowerOfPair(sc, B, C, []);
      MulDivRestStep(sc, a, o1, B + S2, sc.lib.pow(b, c), []);
      assert MulDiv(sc, T) == Ok(Parsed(Apply(sc.lib, o1, a, sc.lib.pow(b, c)), []));
      EvaluationOfProduct(sc, T, Apply(sc.lib, o1, a, sc.lib.pow(b, c)));
    } else {
      var ab := Apply(sc.lib, o1, a, b);
      PowerOfOperand(sc, B, S2);
      MulDivRestStep(sc, a, o1, B + S2, b, S2);
      if o2 == '*' || o2 == '/' {
        MulDivRestStep(sc, ab, o2, C, c, []);
        assert MulDiv(sc, T) == Ok(Parsed(Apply(sc.lib, o2, ab, c), []));
        EvaluationOfProduct(sc, T, Apply(sc.lib, o2, ab, c));
      } else {
        assert MulDiv(sc, T) == Ok(Parsed(ab, S2));
        assert MulDiv(sc, C) == Ok(Parsed(c, []));
        AddSubRestStep(sc, ab, o2, C, c, []);
        assert AddSubRest(sc, Apply(sc.lib, o2, ab, c), []) == Ok(Parsed(Apply(sc.lib, o2, ab, c), []));
        EvaluationOfSum(sc, T, ab, S2, Apply(sc.lib, o2, ab, c));
      }
    }
  }

  /** `A o1 B o2 C` with `o1` one of `+ -`. */
  lemma PrecedenceAfterSum(sc: Scope, A: seq<Token>, o1: char, B: seq<Token>, o2: char, C: seq<Token>)
    requires IsOperand(sc, A) && IsOperand(sc, B) && IsOperand(sc, C)
    requires (o1 == '+' || o1 == '-') && IsBinaryOp(o2)
    ensures
      var a, b, c := OperandValue(sc, A), OperandValue(sc, B), OperandValue(sc, C);
      Evaluation(sc, A + ([Operator(o1)] + (B + ([Operator(o2)] + C))))
      == Ok(if o2 == '+' || o2 == '-' then Apply(sc.lib, o2, Apply(sc.lib, o1, a, b), c)
            else Apply(sc.lib, o1, a, Apply(sc.lib, o2, b, c)))
  {
    var a, b, c := OperandValue(sc, A), OperandValue(sc, B), OperandValue(sc, C);
    var S2 := [Operator(o2)] + C;
    var S1 := [Operator(o1)] + (B + S2);
    var T := A + S1;
    assert C + [] == C;
    PowerOfOperand(sc, C, []);
    PowerOfOperand(sc, A, S1);
    assert MulDiv(sc, T) == Ok(Parsed(a, S1));
    var z;
    if o2 == '^' {
      PowerOfPair(sc, B, C, []);
      assert MulDiv(sc, B + S2) == Ok(Parsed(sc.lib.pow(b, c), []));
      AddSubRestStep(sc, a, o1, B + S2, sc.lib.pow(b, c), []);
      z := Apply(sc.lib, o1, a, sc.lib.pow(b, c));
    } else if o2 == '*' || o2 == '/' {
      PowerOfOperand(sc, B, S2);
      MulDivRestStep(sc, b, o2, C, c, []);
      assert MulDiv(sc, B + S2) == Ok(Parsed(Apply(sc.lib, o2, b, c), []));
      AddSubRestStep(sc, a, o1, B + S2, Apply(sc.lib, o2, b, c), []);
      z := Apply(sc.lib, o1, a, Apply(sc.lib, o2, b, c));
    } else {
      var ab := Apply(sc.lib, o1, a, b);
      PowerOfOperand(sc, B, S2);
      assert MulDiv(sc, B + S2) == Ok(Parsed(b, S2));
      AddSubRestStep(sc, a, o1, B + S2, b, S2);
      assert MulDiv(sc, C) == Ok(Parsed(c, []));
      AddSubRestStep(sc, ab, o2, C, c, []);
      z := Apply(sc.lib, o2, ab, c);
    }
    assert AddSubRest(sc, z, []) == Ok(Parsed(z, []));
    EvaluationOfSum(sc, T, a, S1, z);
  }

  /** Precedence and associativity of the binary operators, for any three
      operands: `A o1 B o2 C` groups as `(A o1 B) o2 C` when `o1` binds at
      least as tightly as `o2` (so all three levels, `^` included, associate
      to the left) and as `A o1 (B o2 C)` otherwise. */
  lemma Precedence(sc: Scope, A: seq<Token>, o1: char, B: seq<Token>, o2: char, C: seq<Token>)
    requires IsOperand(sc, A) && IsOperand(sc, B) && IsOperand(sc, C)
    requires IsBinaryOp(o1) && IsBinaryOp(o2)
    ensures
      var a, b, c := OperandValue(sc, A), OperandValue(sc, B), OperandValue(sc, C);
      Evaluation(sc, A + [Operator(o1)] + B + [Operator(o2)] + C)
      == Ok(if Level(o1) >= Level(o2) then Apply(sc.lib, o2, Apply(sc.lib, o1, a, b), c)
            else Apply(sc.lib, o1, a, Apply(sc.lib, o2, b, c)))
  {
    assert A + [Operator(o1)] + B + [Operator(o2)] + C
        == A + ([Operator(o1)] + (B + ([Operator(o2)] + C)));
    if o1 == '^' {
      PrecedenceAfterPower(sc, A, B, o2, C);
    } else if o1 == '*' || o1 == '/' {
      PrecedenceAfterProduct(sc, A, o1, B, o2, C);
    } else {
      PrecedenceAfterSum(sc, A, o1, B, o2, C);
    }
  }
}
