/** `Grapher.normalizeExpression`: implicit multiplication is made explicit
    by chained global regular-expression replacements, each of which
    inserts a `*` between two characters and never removes one. */
module Normalize {
  import opened Tokenizer

  /** The four rewriting rules, in the order they run:
      `(\d)([a-zA-Z(])`, `\)(\d)`, `\)([a-zA-Z])` and `\)\(`. */
  datatype Rule = DigitThenLetterOrOpen | CloseThenDigit | CloseThenLetter | CloseThenOpen

  /** Whether a rule's two-character pattern matches `a` followed by `b`. */
  predicate Fires(r: Rule, a: char, b: char) {
    match r
    case DigitThenLetterOrOpen => IsDigit(a) && (IsLetter(b) || b == '(')
    case CloseThenDigit => a == ')' && IsDigit(b)
    case CloseThenLetter => a == ')' && IsLetter(b)
    case CloseThenOpen => a == ')' && b == '('
  }

  /** One `replace(/../g, "$1*$2")`: the scan tries a match at each
      position, and after a match resumes behind the two characters it
      consumed. */
  function Pass(s: string, r: Rule): string
    decreases |s|
  {
    if |s| < 2 then s
    else if Fires(r, s[0], s[1]) then [s[0], '*', s[1]] + Pass(s[2..], r)
    else [s[0]] + Pass(s[1..], r)
  }

  /** `normalizeExpression`: the leading `/\^/g -> "^"` replacement changes
      nothing and is the identity here. */
  function NormalizeExpression(s: string): string {
    var p1 := Pass(s, DigitThenLetterOrOpen);
    var p2 := Pass(p1, CloseThenDigit);
    var p3 := Pass(p2, CloseThenLetter);
    Pass(p3, CloseThenOpen)
  }

  const AllRules: set<Rule> := {DigitThenLetterOrOpen, CloseThenDigit, CloseThenLetter, CloseThenOpen}

  /** Some rule of `rs` fires on the pair. */
  predicate AnyFires(rs: set<Rule>, a: char, b: char) {
    exists r :: r in rs && Fires(r, a, b)
  }

  /** Where a star goes, in one predicate: after a digit before a letter or
      `(`, and after `)` before a digit, a letter or `(`. */
  lemma AllRulesFire(a: char, b: char)
    ensures AnyFires(AllRules, a, b)
        <==> (IsDigit(a) && (IsLetter(b) || b == '(')) || (a == ')' && (IsDigit(b) || IsLetter(b) || b == '('))
  {
    if IsDigit(a) && (IsLetter(b) || b == '(') {
      assert Fires(DigitThenLetterOrOpen, a, b);
    } else if a == ')' && IsDigit(b) {
      assert Fires(CloseThenDigit, a, b);
    } else if a == ')' && IsLetter(b) {
      assert Fires(CloseThenLetter, a, b);
    } else if a == ')' && b == '(' {
      assert Fires(CloseThenOpen, a, b);
    }
  }

  /** The reference definition: a `*` between every adjacent pair on which
      some rule of `rs` fires, and nothing else changed. */
  function InsertStars(s: string, rs: set<Rule>): string
    decreases |s|
  {
    if |s| < 2 then s
    else [s[0]] + (if AnyFires(rs, s[0], s[1]) then ['*'] else []) + InsertStars(s[1..], rs)
  }

  /** No rule fires on a pair involving `*`. */
  predicate StarInert(rs: set<Rule>) {
    forall c: char :: !AnyFires(rs, c, '*') && !AnyFires(rs, '*', c)
  }

  lemma AllRulesStarInert(rs: set<Rule>)
    requires rs <= AllRules
    ensures StarInert(rs)
  {
  }

  lemma InsertStarsHead(s: string, rs: set<Rule>)
    requires |s| > 0
    ensures |InsertStars(s, rs)| > 0 && InsertStars(s, rs)[0] == s[0]
  {
  }

  /** A rule never fires on the second character of its own match, so a
      match never hides the start of the next one. */
  lemma NoChainedMatch(r: Rule, a: char, b: char, c: char)
    requires Fires(r, a, b)
    ensures !Fires(r, b, c)
  {
  }

  /** A global replacement pass inserts a star between every matching pair. */
  lemma {:induction false} PassInsertsStars(s: string, r: Rule)
    ensures Pass(s, r) == InsertStars(s, {r})
    decreases |s|
  {
    if |s| >= 2 {
      assert AnyFires({r}, s[0], s[1]) <==> Fires(r, s[0], s[1]);
      PassInsertsStars(s[1..], r);
      if Fires(r, s[0], s[1]) {
        PassInsertsStars(s[2..], r);
        var t := s[1..];
        if |t| >= 2 {
          NoChainedMatch(r, s[0], s[1], s[2]);
          assert !AnyFires({r}, t[0], t[1]);
          assert t[1..] == s[2..];
        }
      }
    }
  }

  /** Running a further star-inert rule after `rs` is the same as running
      both at once. */
  lemma {:induction false} InsertStarsCompose(s: string, rs: set<Rule>, r: Rule)
    requires StarInert({r})
    ensures InsertStars(InsertStars(s, rs), {r}) == InsertStars(s, rs + {r})
    decreases |s|
  {
    if |s| >= 2 {
      var y, z := InsertStars(s[1..], rs), InsertStars(s[1..], rs + {r});
      assert InsertStars(y, {r}) == z by {
        InsertStarsCompose(s[1..], rs, r);
      }
      assert |y| > 0 && y[0] == s[1] by {
        InsertStarsHead(s[1..], rs);
      }
      var x := InsertStars(s, rs);
      if AnyFires(rs, s[0], s[1]) {
        assert AnyFires(rs + {r}, s[0], s[1]);
        assert x == [s[0]] + ['*'] + y;
        SkipStar(x, y, r);
      } else {
        assert x == [s[0]] + y;
        SkipFirst(x, y, r);
        assert AnyFires(rs + {r}, s[0], s[1]) <==> Fires(r, s[0], s[1]);
      }
    }
  }

  /** A rule passes over a star already in place. */
  lemma SkipStar(x: string, y: string, r: Rule)
    requires |y| > 0 && |x| == |y| + 2 && x[1] == '*' && x[2..] == y
    ensures InsertStars(x, {r}) == [x[0]] + ['*'] + InsertStars(y, {r})
  {
    var t := x[1..];
    assert t[0] == '*' && t[1] == y[0] && t[1..] == y;
    assert !Fires(r, x[0], '*') && !Fires(r, '*', y[0]);
    assert InsertStars(t, {r}) == ['*'] + InsertStars(y, {r});
  }

  /** One rule on the first pair of `x`. */
  lemma SkipFirst(x: string, y: string, r: Rule)
    requires |x| >= 2 && x[1..] == y
    ensures InsertStars(x, {r}) == [x[0]] + (if Fires(r, x[0], x[1]) then ['*'] else []) + InsertStars(y, {r})
  {
    assert AnyFires({r}, x[0], x[1]) <==> Fires(r, x[0], x[1]);
  }

  /** The four passes insert a star between every pair on which any rule
      fires. */
  lemma NormalizeInsertsStars(s: string)
    ensures NormalizeExpression(s) == InsertStars(s, AllRules)
  {
    var r1, r2, r3, r4 := DigitThenLetterOrOpen, CloseThenDigit, CloseThenLetter, CloseThenOpen;
    AllRulesStarInert({r2});
    AllRulesStarInert({r3});
    AllRulesStarInert({r4});
    PassInsertsStars(s, r1);
    var p1 := InsertStars(s, {r1});
    PassInsertsStars(p1, r2);
    InsertStarsCompose(s, {r1}, r2);
    var p2 := InsertStars(s, {r1, r2});
    assert {r1} + {r2} == {r1, r2};
    PassInsertsStars(p2, r3);
    InsertStarsCompose(s, {r1, r2}, r3);
    var p3 := InsertStars(s, {r1, r2, r3});
    assert {r1, r2} + {r3} == {r1, r2, r3};
    PassInsertsStars(p3, r4);
    InsertStarsCompose(s, {r1, r2, r3}, r4);
    assert {r1, r2, r3} + {r4} == AllRules;
  }

  /** `s` without its `*` characters. */
  function StripStars(s: string): (t: string)
    ensures '*' !in t
  {
    if s == [] then []
    else (if s[0] == '*' then [] else [s[0]]) + StripStars(s[1..])
  }

  /** Only stars are inserted: deleting every `*` from the output gives the
      input with its own stars deleted, and the output is never shorter. */
  lemma {:induction false} InsertStarsOnlyStars(s: string, rs: set<Rule>)
    ensures StripStars(InsertStars(s, rs)) == StripStars(s)
    ensures |InsertStars(s, rs)| >= |s|
    decreases |s|
  {
    if |s| >= 2 {
      var y := InsertStars(s[1..], rs);
      assert StripStars(y) == StripStars(s[1..]) && |y| >= |s| - 1 by {
        InsertStarsOnlyStars(s[1..], rs);
      }
      var x := InsertStars(s, rs);
      if AnyFires(rs, s[0], s[1]) {
        assert x == [s[0]] + (['*'] + y);
        assert StripStars(['*'] + y) == StripStars(y) by {
          assert (['*'] + y)[1..] == y;
        }
        assert x[1..] == ['*'] + y;
      } else {
        assert x == [s[0]] + y && x[1..] == y;
      }
    }
  }

  lemma NormalizeOnlyInsertsStars(s: string)
    ensures StripStars(NormalizeExpression(s)) == StripStars(s)
    ensures |NormalizeExpression(s)| >= |s|
  {
    NormalizeInsertsStars(s);
    InsertStarsOnlyStars(s, AllRules);
  }

  /** Splitting the input between two characters: a star goes at the seam
      exactly when a rule fires across it, and each side is rewritten on
      its own. */
  lemma {:induction false} InsertStarsSplit(p: string, q: string, rs: set<Rule>)
    requires |p| > 0 && |q| > 0
    ensures InsertStars(p + q, rs)
         == InsertStars(p, rs) + (if AnyFires(rs, p[|p| - 1], q[0]) then ['*'] else []) + InsertStars(q, rs)
    decreases |p|
  {
    var s := p + q;
    var mid := if AnyFires(rs, p[|p| - 1], q[0]) then ['*'] else [];
    if |p| == 1 {
      assert InsertStars(s, rs) == p + mid + InsertStars(q, rs) by {
        assert s[0] == p[0] && s[1..] == q && s[1] == q[0];
        assert p == [p[0]];
      }
    } else {
      var tail := p[1..];
      var g := if AnyFires(rs, p[0], p[1]) then ['*'] else [];
      var a, b := InsertStars(tail, rs), InsertStars(q, rs);
      assert InsertStars(tail + q, rs) == a + mid + b by {
        assert tail[|tail| - 1] == p[|p| - 1];
        InsertStarsSplit(tail, q, rs);
      }
      assert InsertStars(s, rs) == [p[0]] + g + InsertStars(tail + q, rs) by {
        assert s[0] == p[0] && s[1..] == tail + q && s[1] == p[1];
      }
      assert InsertStars(p, rs) == [p[0]] + g + a;
      Regroup([p[0]] + g, a, mid, b);
    }
  }

  /** Concatenation regrouped. */
  lemma Regroup(h: string, a: string, m: string, b: string)
    ensures h + (a + m + b) == (h + a) + m + b
  {
  }

  /** A letter before `(` (a call such as `sin(x)`) is never separated. */
  lemma CallsNotRewritten(p: string, q: string)
    requires |p| > 0 && |q| > 0 && IsLetter(p[|p| - 1]) && q[0] == '('
    ensures NormalizeExpression(p + q) == NormalizeExpression(p) + NormalizeExpression(q)
  {
    NormalizeInsertsStars(p + q);
    NormalizeInsertsStars(p);
    NormalizeInsertsStars(q);
    InsertStarsSplit(p, q, AllRules);
    AllRulesFire(p[|p| - 1], q[0]);
    assert !IsDigit(p[|p| - 1]);
  }

  /** A digit before a letter or `(`, and a `)` before a digit, a letter
      or `(`, are separated by exactly one star. */
  lemma ImplicitProductsSeparated(p: string, q: string)
    requires |p| > 0 && |q| > 0
    requires var a, b := p[|p| - 1], q[0];
      (IsDigit(a) && (IsLetter(b) || b == '(')) || (a == ')' && (IsDigit(b) || IsLetter(b) || b == '('))
    ensures NormalizeExpression(p + q) == NormalizeExpression(p) + "*" + NormalizeExpression(q)
  {
    NormalizeInsertsStars(p + q);
    NormalizeInsertsStars(p);
    NormalizeInsertsStars(q);
    InsertStarsSplit(p, q, AllRules);
    AllRulesFire(p[|p| - 1], q[0]);
  }

  /** No adjacent pair of `s` makes a rule fire. */
  predicate NoFiringPair(s: string, rs: set<Rule>) {
    forall k :: 0 <= k < |s| - 1 ==> !AnyFires(rs, s[k], s[k + 1])
  }

  /** A pair-free string is a pair-free tail behind a non-firing pair. */
  lemma NoFiringPairUncons(s: string, rs: set<Rule>)
    requires |s| >= 2
    ensures NoFiringPair(s, rs) <==> !AnyFires(rs, s[0], s[1]) && NoFiringPair(s[1..], rs)
  {
    var t := s[1..];
    if !AnyFires(rs, s[0], s[1]) && NoFiringPair(t, rs) {
      forall k | 0 <= k < |s| - 1
        ensures !AnyFires(rs, s[k], s[k + 1])
      {
        if k > 0 {
          assert s[k] == t[k - 1] && s[k + 1] == t[k];
        }
      }
    }
    if NoFiringPair(s, rs) {
      forall k | 0 <= k < |t| - 1
        ensures !AnyFires(rs, t[k], t[k + 1])
      {
        assert t[k] == s[k + 1] && t[k + 1] == s[k + 2];
      }
    }
  }

  /** The output is the input exactly when no rule fires anywhere in it. */
  lemma {:induction false} InsertStarsUnchanged(s: string, rs: set<Rule>)
    ensures InsertStars(s, rs) == s <==> NoFiringPair(s, rs)
    decreases |s|
  {
    if |s| >= 2 {
      var t := s[1..];
      var y := InsertStars(t, rs);
      assert y == t <==> NoFiringPair(t, rs) by {
        InsertStarsUnchanged(t, rs);
      }
      assert NoFiringPair(s, rs) <==> !AnyFires(rs, s[0], s[1]) && NoFiringPair(t, rs) by {
        NoFiringPairUncons(s, rs);
      }
      if AnyFires(rs, s[0], s[1]) {
        assert |y| >= |t| by {
          InsertStarsOnlyStars(t, rs);
        }
        assert InsertStars(s, rs) == [s[0]] + ['*'] + y;
      } else {
        assert InsertStars(s, rs) == [s[0]] + y;
        ConsIsWhole(s, y);
      }
    }
  }

  /** The head of `s` followed by `y` is `s` exactly when `y` is its tail. */
  lemma ConsIsWhole(s: string, y: string)
    requires |s| > 0
    ensures [s[0]] + y == s <==> y == s[1..]
  {
    if [s[0]] + y == s {
      assert ([s[0]] + y)[1..] == y;
    }
  }

  /** After the insertion no rule fires anywhere. */
  lemma {:induction false} InsertStarsSaturates(s: string, rs: set<Rule>)
    requires StarInert(rs)
    ensures NoFiringPair(InsertStars(s, rs), rs)
    decreases |s|
  {
    if |s| >= 2 {
      InsertStarsSaturates(s[1..], rs);
      var y := InsertStars(s[1..], rs);
      InsertStarsHead(s[1..], rs);
      var x := InsertStars(s, rs);
      if AnyFires(rs, s[0], s[1]) {
        assert x == [s[0], '*'] + y;
        forall k | 0 <= k < |x| - 1
          ensures !AnyFires(rs, x[k], x[k + 1])
        {
          if k >= 2 {
            assert x[k] == y[k - 2] && x[k + 1] == y[k - 1];
          }
        }
      } else {
        assert x == [s[0]] + y;
        forall k | 0 <= k < |x| - 1
          ensures !AnyFires(rs, x[k], x[k + 1])
        {
          if k >= 1 {
            assert x[k] == y[k - 1] && x[k + 1] == y[k];
          }
        }
      }
    }
  }

  /** Normalizing twice is normalizing once. */
  lemma NormalizeIdempotent(s: string)
    ensures NormalizeExpression(NormalizeExpression(s)) == NormalizeExpression(s)
  {
    var t := NormalizeExpression(s);
    NormalizeInsertsStars(s);
    NormalizeInsertsStars(t);
    AllRulesStarInert(AllRules);
    InsertStarsSaturates(s, AllRules);
    InsertStarsUnchanged(t, AllRules);
  }

  /** `2x` becomes `2*x`. */
  lemma NormalizeProductExample()
    ensures NormalizeExpression("2x") == "2*x"
  {
    ImplicitProductsSeparated("2", "x");
    assert "2" + "x" == "2x";
  }

  /** `sin(x)` is left alone. */
  lemma NormalizeCallExample()
    ensures NormalizeExpression("sin(x)") == "sin(x)"
  {
    CallsNotRewritten("sin", "(x)");
    assert "sin" + "(x)" == "sin(x)";
    assert NormalizeExpression("sin") == "sin";
    assert NormalizeExpression("(x)") == "(x)";
  }
}
