/** The hand-written lexer of `MathParser.tokenize` (math-parser.js). */
module Tokenizer {
  import opened Wrappers

  /** A token as the lexer emits it; a NUMBER carries the value that
      `parseFloat` gives its lexeme. */
  datatype Token =
    | Number(value: real)
    | Identifier(name: string)
    | Operator(op: char)
    | Comma

  /** The one error the lexer raises: "Unexpected character". */
  datatype LexError = UnexpectedCharacter(c: char)

  // Character classes, as the source's regular expressions define them.

  /** `/\d/`: ASCII digits only. */
  predicate IsDigit(c: char) {
    '0' <= c <= '9'
  }

  /** `/[a-zA-Z]/`. */
  predicate IsLetter(c: char) {
    'a' <= c <= 'z' || 'A' <= c <= 'Z'
  }

  /** `/\s/`: the ECMAScript white space and line terminator characters. */
  predicate IsWhitespace(c: char) {
    || c == ' ' || c == '\t' || c == '\n' || c == '\r'
    || c == '\U{000B}' || c == '\U{000C}' || c == '\U{00A0}' || c == '\U{1680}'
    || ('\U{2000}' <= c <= '\U{200A}')
    || c == '\U{2028}' || c == '\U{2029}' || c == '\U{202F}' || c == '\U{205F}'
    || c == '\U{3000}' || c == '\U{FEFF}'
  }

  /** The eight characters that are each an OPERATOR token. */
  predicate IsOperatorChar(c: char) {
    c == '+' || c == '-' || c == '*' || c == '/' || c == '^' || c == '(' || c == ')'
  }

  /** Characters a NUMBER lexeme is made of once it has started. */
  predicate IsNumberChar(c: char) {
    IsDigit(c) || c == '.'
  }

  /** Characters that can never make the lexer fail; a `.` is accepted only
      inside a number, so it is not one of them. */
  predicate IsAccepted(c: char) {
    IsWhitespace(c) || IsDigit(c) || IsLetter(c) || IsOperatorChar(c) || c == ','
  }

  /** A number starts at a digit, or at a `.` followed by a digit. */
  predicate StartsNumber(s: string) {
    |s| > 0 && (IsDigit(s[0]) || (s[0] == '.' && |s| > 1 && IsDigit(s[1])))
  }

  /** Length of the longest prefix of `s` whose characters all satisfy `p`. */
  function Run(s: string, p: char -> bool): (n: nat)
    ensures n <= |s|
    ensures forall k :: 0 <= k < n ==> p(s[k])
    ensures n == |s| || !p(s[n])
  {
    if s == [] || !p(s[0]) then 0 else 1 + Run(s[1..], p)
  }

  // Decimal value of a lexeme, as `parseFloat` reads it.

  function DigitValue(c: char): nat
    requires IsDigit(c)
  {
    (c as int) - ('0' as int)
  }

  /** Value of a string of decimal digits; the empty string is 0. */
  function DigitsValue(d: string): nat
    requires forall k :: 0 <= k < |d| ==> IsDigit(d[k])
  {
    if d == [] then 0 else DigitsValue(d[..|d| - 1]) * 10 + DigitValue(d[|d| - 1])
  }

  function Pow10(m: nat): (r: nat)
    ensures r >= 1
  {
    if m == 0 then 1 else 10 * Pow10(m - 1)
  }

  /** `parseFloat` on a run of digits and dots: the longest prefix of the form
      `digits [. digits]` is read, and everything from a second `.` on is
      ignored.  The value is the exact decimal value of that prefix. */
  function ParseFloat(lexeme: string): (v: real)
    ensures v >= 0.0
  {
    var k := Run(lexeme, IsDigit);
    var whole := DigitsValue(lexeme[..k]) as real;
    if k < |lexeme| && lexeme[k] == '.' then
      var rest := lexeme[k + 1..];
      var m := Run(rest, IsDigit);
      whole + (DigitsValue(rest[..m]) as real) / (Pow10(m) as real)
    else
      whole
  }

  /** Puts `t` in front of a successful token sequence; errors pass through. */
  function Prepend(t: Token, r: Result<seq<Token>, LexError>): Result<seq<Token>, LexError> {
    match r
    case Ok(ts) => Ok([t] + ts)
    case Err(e) => Err(e)
  }

  /** Puts `ts` in front of a successful token sequence; errors pass through. */
  function PrependAll(ts: seq<Token>, r: Result<seq<Token>, LexError>): Result<seq<Token>, LexError> {
    match r
    case Ok(us) => Ok(ts + us)
    case Err(e) => Err(e)
  }

  /** The tokens of `s`, read left to right with maximal munch: the
      specification the `Tokenize` loop is proved against. */
  function Lex(s: string): Result<seq<Token>, LexError>
    decreases |s|
  {
    if s == [] then Ok([])
    else if IsWhitespace(s[0]) then Lex(s[1..])
    else if StartsNumber(s) then
      var n := Run(s, IsNumberChar);
      Prepend(Number(ParseFloat(s[..n])), Lex(s[n..]))
    else if IsLetter(s[0]) then
      var n := Run(s, IsLetter);
      Prepend(Identifier(s[..n]), Lex(s[n..]))
    else if IsOperatorChar(s[0]) then Prepend(Operator(s[0]), Lex(s[1..]))
    else if s[0] == ',' then Prepend(Comma, Lex(s[1..]))
    else Err(UnexpectedCharacter(s[0]))
  }

  /** `MathParser.tokenize`: a loop over the index `i` that accumulates the
      current number or name and pushes tokens. */
  method Tokenize(expr: string) returns (r: Result<seq<Token>, LexError>)
    ensures r == Lex(expr)
  {
    var tokens: seq<Token> := [];
    var i := 0;
    assert expr[i..] == expr;
    assert Lex(expr).Ok? ==> [] + Lex(expr).value == Lex(expr).value;
    while i < |expr|
      invariant 0 <= i <= |expr|
      invariant Lex(expr) == PrependAll(tokens, Lex(expr[i..]))
    {
      var c := expr[i];
      if IsWhitespace(c) {
        LexSkipStep(expr, i);
        i := i + 1;
      } else if IsDigit(c) || (c == '.' && i + 1 < |expr| && IsDigit(expr[i + 1])) {
        ghost var start := i;
        var num;
        num, i := ScanRun(expr, i, IsNumberChar);
        LexNumberStep(expr, start, i);
        PrependAllPrepend(tokens, Number(ParseFloat(num)), Lex(expr[i..]));
        tokens := tokens + [Number(ParseFloat(num))];
      } else if IsLetter(c) {
        ghost var start := i;
        var name;
        name, i := ScanRun(expr, i, IsLetter);
        LexNameStep(expr, start, i);
        PrependAllPrepend(tokens, Identifier(name), Lex(expr[i..]));
        tokens := tokens + [Identifier(name)];
      } else if IsOperatorChar(c) || c == ',' {
        var t := if c == ',' then Comma else Operator(c);
        LexSingleStep(expr, i);
        PrependAllPrepend(tokens, t, Lex(expr[i + 1..]));
        tokens := tokens + [t];
        i := i + 1;
      } else {
        LexSingleStep(expr, i);
        return Err(UnexpectedCharacter(c));
      }
    }
    assert tokens + [] == tokens;
    return Ok(tokens);
  }

  /** The inner loops of `tokenize`: collect characters from `i` on while
      they satisfy `p`. */
  method ScanRun(expr: string, i: nat, p: char -> bool) returns (run: string, j: nat)
    requires i <= |expr|
    ensures i <= j <= |expr| && run == expr[i..j]
    ensures forall k :: i <= k < j ==> p(expr[k])
    ensures j == |expr| || !p(expr[j])
  {
    run, j := "", i;
    while j < |expr| && p(expr[j])
      invariant i <= j <= |expr|
      invariant run == expr[i..j]
      invariant forall k :: i <= k < j ==> p(expr[k])
    {
      run := run + [expr[j]];
      j := j + 1;
    }
  }

  lemma PrependAllPrepend(ts: seq<Token>, t: Token, r: Result<seq<Token>, LexError>)
    ensures PrependAll(ts, Prepend(t, r)) == PrependAll(ts + [t], r)
  {
    if r.Ok? {
      assert ts + ([t] + r.value) == (ts + [t]) + r.value;
    }
  }

  /** One step of `Lex` at a whitespace character. */
  lemma LexSkipStep(expr: string, i: nat)
    requires i < |expr| && IsWhitespace(expr[i])
    ensures Lex(expr[i..]) == Lex(expr[i + 1..])
  {
    assert expr[i..][1..] == expr[i + 1..];
  }

  /** One step of `Lex` at an operator, a comma or a rejected character. */
  lemma LexSingleStep(expr: string, i: nat)
    requires i < |expr| && !IsWhitespace(expr[i]) && !IsLetter(expr[i]) && !IsDigit(expr[i])
    requires !(expr[i] == '.' && i + 1 < |expr| && IsDigit(expr[i + 1]))
    ensures IsOperatorChar(expr[i]) ==> Lex(expr[i..]) == Prepend(Operator(expr[i]), Lex(expr[i + 1..]))
    ensures expr[i] == ',' ==> Lex(expr[i..]) == Prepend(Comma, Lex(expr[i + 1..]))
    ensures !IsOperatorChar(expr[i]) && expr[i] != ',' ==> Lex(expr[i..]) == Err(UnexpectedCharacter(expr[i]))
  {
    var s := expr[i..];
    assert s[0] == expr[i] && s[1..] == expr[i + 1..];
    assert !StartsNumber(s);
  }

  /** One step of `Lex` over a maximal run of number characters found by a
      loop. */
  lemma LexNumberStep(expr: string, i: nat, j: nat)
    requires i < j <= |expr| && StartsNumber(expr[i..]) && !IsWhitespace(expr[i])
    requires forall k :: i <= k < j ==> IsNumberChar(expr[k])
    requires j == |expr| || !IsNumberChar(expr[j])
    ensures Lex(expr[i..]) == Prepend(Number(ParseFloat(expr[i..j])), Lex(expr[j..]))
  {
    var s := expr[i..];
    RunIs(s, IsNumberChar, j - i);
    assert s[..j - i] == expr[i..j];
    assert s[j - i..] == expr[j..];
  }

  /** One step of `Lex` over a maximal run of letters found by a loop. */
  lemma LexNameStep(expr: string, i: nat, j: nat)
    requires i < j <= |expr| && IsLetter(expr[i])
    requires forall k :: i <= k < j ==> IsLetter(expr[k])
    requires j == |expr| || !IsLetter(expr[j])
    ensures Lex(expr[i..]) == Prepend(Identifier(expr[i..j]), Lex(expr[j..]))
  {
    var s := expr[i..];
    assert !IsWhitespace(s[0]) && !StartsNumber(s);
    RunIs(s, IsLetter, j - i);
    assert s[..j - i] == expr[i..j];
    assert s[j - i..] == expr[j..];
  }

  /** `Run` is the unique maximal prefix length. */
  lemma RunIs(s: string, p: char -> bool, n: nat)
    requires n <= |s|
    requires forall k :: 0 <= k < n ==> p(s[k])
    requires n == |s| || !p(s[n])
    ensures Run(s, p) == n
  {
  }
}
