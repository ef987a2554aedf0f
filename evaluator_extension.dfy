/** A complete parse does not depend on what follows it, as long as the next
    token cannot continue it.  This is what makes the grammar's precedence
    and associativity statable over arbitrary operands, and it is why
    trailing tokens after a complete expression are ignored. */
module EvaluatorExtension {
  import opened Wrappers
  import opened Numeric
  import opened Tokenizer
  import opened Evaluator

  /** `R` cannot continue a primary: an identifier followed by `(` would
      become a call. */
  predicate StopsPrimary(R: seq<Token>) {
    R == [] || R[0] != Operator('(')
  }

  /** `R` cannot continue a power chain. */
  predicate StopsPower(R: seq<Token>) {
    StopsPrimary(R) && !StartsWithOp(R, '^')
  }

  /** `R` cannot continue a product. */
  predicate StopsMulDiv(R: seq<Token>) {
    StopsPower(R) && !StartsWithOp(R, '*') && !StartsWithOp(R, '/')
  }

  /** `R` cannot continue a sum: it is empty or starts with `)`, `,`, a
      number or an identifier. */
  predicate StopsAddSub(R: seq<Token>) {
    StopsMulDiv(R) && !StartsWithOp(R, '+') && !StartsWithOp(R, '-')
  }

  lemma ConcatTail(A: seq<Token>, R: seq<Token>, k: nat)
    requires k <= |A|
    ensures (A + R)[k..] == A[k..] + R
    ensures k < |A| ==> (A + R)[k] == A[k]
  {
  }

  lemma {:induction false} PrimaryExtends(sc: Scope, A: seq<Token>, R: seq<Token>)
    requires Primary(sc, A).Ok?
    requires Primary(sc, A).value.rest != [] || StopsPrimary(R)
    ensures Primary(sc, A + R) == Ok(Parsed(Primary(sc, A).value.value, Primary(sc, A).value.rest + R))
    decreases |A|, 0
  {
    ConcatTail(A, R, 0);
    ConcatTail(A, R, 1);
    match A[0]
    case Number(_) =>
    case Identifier(name) =>
      if StartsWithOp(A[1..], '(') {
        ConcatTail(A, R, 2);
        ArgListExtends(sc, A[2..], R);
        var a := ArgList(sc, A[2..]).value;
        ConcatTail(a.rest, R, 1);
      } else if A[1..] != [] {
        assert (A + R)[1] == A[1];
      }
    case Operator(c) =>
      if c == '(' {
        AddSubExtends(sc, A[1..], R);
        var p := AddSub(sc, A[1..]).value;
        ConcatTail(p.rest, R, 1);
      }
    case Comma =>
  }

  lemma {:induction false} UnaryExtends(sc: Scope, A: seq<Token>, R: seq<Token>)
    requires Unary(sc, A).Ok?
    requires Unary(sc, A).value.rest != [] || StopsPrimary(R)
    ensures Unary(sc, A + R) == Ok(Parsed(Unary(sc, A).value.value, Unary(sc, A).value.rest + R))
    decreases |A|, 1
  {
    ConcatTail(A, R, 0);
    if StartsWithOp(A, '+') || StartsWithOp(A, '-') {
      ConcatTail(A, R, 1);
      UnaryExtends(sc, A[1..], R);
    } else {
      PrimaryExtends(sc, A, R);
    }
  }

  lemma {:induction false} PowerRestExtends(sc: Scope, left: Num, A: seq<Token>, R: seq<Token>)
    requires PowerRest(sc, left, A).Ok?
    requires PowerRest(sc, left, A).value.rest != [] || StopsPower(R)
    ensures PowerRest(sc, left, A + R) == Ok(Parsed(PowerRest(sc, left, A).value.value, PowerRest(sc, left, A).value.rest + R))
    decreases |A|, 2
  {
    if StartsWithOp(A, '^') {
      ConcatTail(A, R, 0);
      ConcatTail(A, R, 1);
      var p := Unary(sc, A[1..]).value;
      UnaryExtends(sc, A[1..], R);
      PowerRestExtends(sc, sc.lib.pow(left, p.value), p.rest, R);
    } else if A != [] {
      ConcatTail(A, R, 0);
    } else {
      assert A + R == R;
    }
  }

  lemma {:induction false} PowerExtends(sc: Scope, A: seq<Token>, R: seq<Token>)
    requires Power(sc, A).Ok?
    requires Power(sc, A).value.rest != [] || StopsPower(R)
    ensures Power(sc, A + R) == Ok(Parsed(Power(sc, A).value.value, Power(sc, A).value.rest + R))
    decreases |A|, 3
  {
    var p := Unary(sc, A).value;
    UnaryExtends(sc, A, R);
    PowerRestExtends(sc, p.value, p.rest, R);
  }

  lemma {:induction false} MulDivRestExtends(sc: Scope, left: Num, A: seq<Token>, R: seq<Token>)
    requires MulDivRest(sc, left, A).Ok?
    requires MulDivRest(sc, left, A).value.rest != [] || StopsMulDiv(R)
    ensures MulDivRest(sc, left, A + R) == Ok(Parsed(MulDivRest(sc, left, A).value.value, MulDivRest(sc, left, A).value.rest + R))
    decreases |A|, 4
  {
    if StartsWithOp(A, '*') || StartsWithOp(A, '/') {
      ConcatTail(A, R, 0);
      ConcatTail(A, R, 1);
      var p := Power(sc, A[1..]).value;
      PowerExtends(sc, A[1..], R);
      var next := if A[0].op == '*' then Mul(left, p.value) else Div(left, p.value);
      MulDivRestExtends(sc, next, p.rest, R);
    } else if A != [] {
      ConcatTail(A, R, 0);
    } else {
      assert A + R == R;
    }
  }

  lemma {:induction false} MulDivExtends(sc: Scope, A: seq<Token>, R: seq<Token>)
    requires MulDiv(sc, A).Ok?
    requires MulDiv(sc, A).value.rest != [] || StopsMulDiv(R)
    ensures MulDiv(sc, A + R) == Ok(Parsed(MulDiv(sc, A).value.value, MulDiv(sc, A).value.rest + R))
    decreases |A|, 5
  {
    var p := Power(sc, A).value;
    PowerExtends(sc, A, R);
    MulDivRestExtends(sc, p.value, p.rest, R);
  }

  lemma {:induction false} AddSubRestExtends(sc: Scope, left: Num, A: seq<Token>, R: seq<Token>)
    requires AddSubRest(sc, left, A).Ok?
    requires AddSubRest(sc, left, A).value.rest != [] || StopsAddSub(R)
    ensures AddSubRest(sc, left, A + R) == Ok(Parsed(AddSubRest(sc, left, A).value.value, AddSubRest(sc, left, A).value.rest + R))
    decreases |A|, 6
  {
    if StartsWithOp(A, '+') || StartsWithOp(A, '-') {
      ConcatTail(A, R, 0);
      ConcatTail(A, R, 1);
      var p := MulDiv(sc, A[1..]).value;
      MulDivExtends(sc, A[1..], R);
      var next := if A[0].op == '+' then Add(left, p.value) else Sub(left, p.value);
      AddSubRestExtends(sc, next, p.rest, R);
    } else if A != [] {
      ConcatTail(A, R, 0);
    } else {
      assert A + R == R;
    }
  }

  lemma {:induction false} AddSubExtends(sc: Scope, A: seq<Token>, R: seq<Token>)
    requires AddSub(sc, A).Ok?
    requires AddSub(sc, A).value.rest != [] || StopsAddSub(R)
    ensures AddSub(sc, A + R) == Ok(Parsed(AddSub(sc, A).value.value, AddSub(sc, A).value.rest + R))
    decreases |A|, 7
  {
    var p := MulDiv(sc, A).value;
    MulDivExtends(sc, A, R);
    AddSubRestExtends(sc, p.value, p.rest, R);
  }

  lemma {:induction false} ArgsRestExtends(sc: Scope, args: seq<Num>, A: seq<Token>, R: seq<Token>)
    requires ArgsRest(sc, args, A).Ok? && ArgsRest(sc, args, A).value.rest != []
    ensures ArgsRest(sc, args, A + R) == Ok(ParsedArgs(ArgsRest(sc, args, A).value.args, ArgsRest(sc, args, A).value.rest + R))
    decreases |A|, 8
  {
    ConcatTail(A, R, 0);
    if |A| > 0 && A[0] == Comma {
      ConcatTail(A, R, 1);
      var p := AddSub(sc, A[1..]).value;
      AddSubExtends(sc, A[1..], R);
      ArgsRestExtends(sc, args + [p.value], p.rest, R);
    }
  }

  lemma {:induction false} ArgListExtends(sc: Scope, A: seq<Token>, R: seq<Token>)
    requires ArgList(sc, A).Ok? && ArgList(sc, A).value.rest != []
    ensures ArgList(sc, A + R) == Ok(ParsedArgs(ArgList(sc, A).value.args, ArgList(sc, A).value.rest + R))
    decreases |A|, 9
  {
    ConcatTail(A, R, 0);
    if !StartsWithClose(A) {
      var p := AddSub(sc, A).value;
      AddSubExtends(sc, A, R);
      ArgsRestExtends(sc, [p.value], p.rest, R);
    }
  }
}
