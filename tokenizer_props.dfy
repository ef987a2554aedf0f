/** What the lexer of math-parser.js promises, proved about `Lex`. */
module TokenizerProperties {
  import opened Wrappers
  import opened Tokenizer

  /** The token classes the lexer can emit. */
  predicate WellFormed(t: Token) {
    match t
    case Number(v) => v >= 0.0
    case Identifier(name) => |name| > 0 && forall k :: 0 <= k < |name| ==> IsLetter(name[k])
    case Operator(c) => IsOperatorChar(c)
    case Comma => true
  }

  /** Every emitted token is a non-negative NUMBER, a non-empty IDENTIFIER of
      ASCII letters, one OPERATOR from `+ - * / ^ ( )`, or a COMMA. */
  lemma {:induction false} LexTokensWellFormed(s: string)
    requires Lex(s).Ok?
    ensures forall t :: t in Lex(s).value ==> WellFormed(t)
    decreases |s|
  {
    if s == [] {
    } else if IsWhitespace(s[0]) {
      LexTokensWellFormed(s[1..]);
    } else if StartsNumber(s) {
      LexTokensWellFormed(s[Run(s, IsNumberChar)..]);
    } else if IsLetter(s[0]) {
      LexTokensWellFormed(s[Run(s, IsLetter)..]);
    } else {
      LexTokensWellFormed(s[1..]);
    }
  }

  /** Whitespace emits nothing. */
  lemma {:induction false} LexSkipsWhitespace(w: string, s: string)
    requires forall k :: 0 <= k < |w| ==> IsWhitespace(w[k])
    ensures Lex(w + s) == Lex(s)
  {
    if w != [] {
      assert (w + s)[1..] == w[1..] + s;
      LexSkipsWhitespace(w[1..], s);
    } else {
      assert w + s == s;
    }
  }

  /** Maximal munch for numbers: a run `d` of digits and dots that starts a
      number and is not followed by another digit or dot becomes exactly one
      NUMBER token, whose value is `parseFloat(d)`. */
  lemma LexNumberMaximal(d: string, s: string)
    requires StartsNumber(d)
    requires forall k :: 0 <= k < |d| ==> IsNumberChar(d[k])
    requires s == [] || !IsNumberChar(s[0])
    ensures Lex(d + s) == Prepend(Number(ParseFloat(d)), Lex(s))
  {
    var ds := d + s;
    assert ds[0] == d[0] && (|d| > 1 ==> ds[1] == d[1]);
    assert StartsNumber(ds);
    RunIs(ds, IsNumberChar, |d|);
    assert ds[..|d|] == d && ds[|d|..] == s;
  }

  /** Maximal munch for identifiers: a run `w` of letters not followed by a
      letter becomes exactly one IDENTIFIER token named `w`, so the character
      after an identifier is never a letter. */
  lemma LexIdentifierMaximal(w: string, s: string)
    requires |w| > 0 && forall k :: 0 <= k < |w| ==> IsLetter(w[k])
    requires s == [] || !IsLetter(s[0])
    ensures Lex(w + s) == Prepend(Identifier(w), Lex(s))
  {
    var ws := w + s;
    assert ws[0] == w[0];
    assert !StartsNumber(ws);
    RunIs(ws, IsLetter, |w|);
    assert ws[..|w|] == w && ws[|w|..] == s;
  }

  /** A `.` starts a number only when a digit follows it; otherwise it is an
      unexpected character. */
  lemma LexLoneDot(s: string)
    requires s == [] || !IsDigit(s[0])
    ensures Lex(['.'] + s) == Err(UnexpectedCharacter('.'))
  {
    var ds := ['.'] + s;
    assert ds != [] && ds[0] == '.';
    assert !StartsNumber(ds) by {
      assert |ds| > 1 ==> ds[1] == s[0];
    }
    assert !IsWhitespace('.') && !IsLetter('.') && !IsOperatorChar('.');
  }

  /** Each of `+ - * / ^ ( )` and `,` is a token of its own. */
  lemma LexSingleCharacter(c: char, s: string)
    requires IsOperatorChar(c) || c == ','
    ensures Lex([c] + s) == Prepend(if c == ',' then Comma else Operator(c), Lex(s))
  {
    var cs := [c] + s;
    assert cs[0] == c && cs[1..] == s;
  }

  /** A character outside the accepted classes (and not a `.`) anywhere in
      the input makes the lexer fail. */
  lemma {:induction false} LexRejects(s: string, i: nat)
    requires i < |s| && !IsAccepted(s[i]) && s[i] != '.'
    ensures Lex(s).Err?
    decreases |s|
  {
    if i == 0 {
      assert !StartsNumber(s);
    } else if IsWhitespace(s[0]) {
      LexRejects(s[1..], i - 1);
    } else if StartsNumber(s) {
      var n := Run(s, IsNumberChar);
      assert n <= i;
      LexRejects(s[n..], i - n);
    } else if IsLetter(s[0]) {
      var n := Run(s, IsLetter);
      assert n <= i;
      LexRejects(s[n..], i - n);
    } else if IsOperatorChar(s[0]) || s[0] == ',' {
      LexRejects(s[1..], i - 1);
    }
  }

  /** Input made only of accepted characters (no `.`) always lexes. */
  lemma {:induction false} LexAccepts(s: string)
    requires forall k :: 0 <= k < |s| ==> IsAccepted(s[k])
    ensures Lex(s).Ok?
    decreases |s|
  {
    if s == [] {
    } else if IsWhitespace(s[0]) {
      LexAccepts(s[1..]);
    } else if StartsNumber(s) {
      LexAccepts(s[Run(s, IsNumberChar)..]);
    } else if IsLetter(s[0]) {
      LexAccepts(s[Run(s, IsLetter)..]);
    } else {
      LexAccepts(s[1..]);
    }
  }

  /** The character the lexer reports occurs in the input and is either
      outside the accepted classes or a `.` that does not start a number. */
  lemma {:induction false} LexErrorCharacter(s: string)
    requires Lex(s).Err?
    ensures Lex(s).error.c in s
    ensures Lex(s).error.c == '.' || !IsAccepted(Lex(s).error.c)
    decreases |s|
  {
    if s == [] {
    } else if IsWhitespace(s[0]) {
      LexErrorCharacter(s[1..]);
    } else if StartsNumber(s) {
      LexErrorCharacter(s[Run(s, IsNumberChar)..]);
    } else if IsLetter(s[0]) {
      LexErrorCharacter(s[Run(s, IsLetter)..]);
    } else if IsOperatorChar(s[0]) || s[0] == ',' {
      LexErrorCharacter(s[1..]);
    }
  }

  /** `parseFloat` on a run of digits is its decimal value. */
  lemma ParseFloatOfDigits(d: string)
    requires forall k :: 0 <= k < |d| ==> IsDigit(d[k])
    ensures ParseFloat(d) == DigitsValue(d) as real
  {
    RunIs(d, IsDigit, |d|);
    assert d[..|d|] == d;
  }

  /** The tail of the example below: `x+3` lexes to three tokens. */
  lemma LexExampleTail()
    ensures Lex("x+3") == Ok([Identifier("x"), Operator('+'), Number(3.0)])
  {
    assert Lex("3") == Ok([Number(3.0)]) by {
      assert ParseFloat("3") == 3.0 by {
        ParseFloatOfDigits("3");
        assert "3"[..0] == "";
        assert DigitsValue("3") == 3;
      }
      assert Lex("") == Ok([]);
      LexNumberMaximal("3", "");
      assert "3" + "" == "3";
      assert Lex("3" + "") == Prepend(Number(3.0), Ok([]));
      assert [Number(3.0)] + [] == [Number(3.0)];
    }
    assert Lex("+3") == Ok([Operator('+'), Number(3.0)]) by {
      LexSingleCharacter('+', "3");
      assert ['+'] + "3" == "+3";
      assert [Operator('+')] + [Number(3.0)] == [Operator('+'), Number(3.0)];
    }
    LexIdentifierMaximal("x", "+3");
    assert "x" + "+3" == "x+3";
    assert [Identifier("x")] + [Operator('+'), Number(3.0)] == [Identifier("x"), Operator('+'), Number(3.0)];
  }

  /** `2*x+3` lexes to five tokens. */
  lemma LexExample()
    ensures Lex("2*x+3") == Ok([Number(2.0), Operator('*'), Identifier("x"), Operator('+'), Number(3.0)])
  {
    var rest := [Operator('*'), Identifier("x"), Operator('+'), Number(3.0)];
    assert Lex("*x+3") == Ok(rest) by {
      LexExampleTail();
      LexSingleCharacter('*', "x+3");
      assert ['*'] + "x+3" == "*x+3";
      assert [Operator('*')] + [Identifier("x"), Operator('+'), Number(3.0)] == rest;
    }
    assert ParseFloat("2") == 2.0 by {
      ParseFloatOfDigits("2");
      assert "2"[..0] == "";
      assert DigitsValue("2") == 2;
    }
    LexNumberMaximal("2", "*x+3");
    assert "2" + "*x+3" == "2*x+3";
    assert [Number(2.0)] + rest == [Number(2.0), Operator('*'), Identifier("x"), Operator('+'), Number(3.0)];
  }
}
