/** The function and constant registries of `MathParser` (math-parser.js),
    as finite maps over the listed names.  What the underlying `Math.*`
    routines compute is a parameter (`MathLib`), not modelled. */
module Registry {
  import opened Numeric

  /** The `Math.*` routines the registry refers to directly. */
  datatype Prim =
    | Sin | Cos | Tan | Asin | Acos | Atan | Sinh | Cosh | Tanh
    | Abs | Sqrt | Exp | Ln | Log10 | Floor | Ceil | Round

  /** A registry entry: a `Math.*` routine itself, or one of the four arrow
      functions defined in terms of them. */
  datatype Builtin = MathFn(prim: Prim) | Sec | Csc | Cot | Logb

  /** The numeric library: what each `Math.*` routine returns for an
      argument, `Math.pow`, and the values of `Math.PI` and `Math.E`. */
  datatype MathLib = MathLib(
    prim: (Prim, Num) -> Num,
    pow: (Num, Num) -> Num,
    pi: real,
    e: real)

  /** `this.functions`: 22 names.  `log` is the decimal logarithm, like
      `log10`; `ln` is the natural one. */
  const Functions: map<string, Builtin> := map[
    "sin" := MathFn(Sin), "cos" := MathFn(Cos), "tan" := MathFn(Tan),
    "asin" := MathFn(Asin), "acos" := MathFn(Acos), "atan" := MathFn(Atan),
    "sinh" := MathFn(Sinh), "cosh" := MathFn(Cosh), "tanh" := MathFn(Tanh),
    "abs" := MathFn(Abs), "sqrt" := MathFn(Sqrt), "exp" := MathFn(Exp),
    "ln" := MathFn(Ln), "log" := MathFn(Log10), "log10" := MathFn(Log10),
    "floor" := MathFn(Floor), "ceil" := MathFn(Ceil), "round" := MathFn(Round),
    "sec" := Sec, "csc" := Csc, "cot" := Cot, "logb" := Logb]

  /** `this.constants`: `pi` and `e`. */
  function Constants(lib: MathLib): (m: map<string, Num>)
    ensures m.Keys == {"pi", "e"}
    ensures forall name :: name in m ==> m[name].Finite?
  {
    map["pi" := Finite(lib.pi), "e" := Finite(lib.e)]
  }

  /** The `k`-th argument of a spread call; a missing argument is
      `undefined`, which every `Math.*` routine turns into NaN. */
  function Arg(args: seq<Num>, k: nat): Num {
    if k < |args| then args[k] else NaN
  }

  /** `this.functions[name](...args)`: arity is not checked; extra
      arguments are ignored and missing ones are `undefined`. */
  function Call(lib: MathLib, b: Builtin, args: seq<Num>): Num {
    match b
    case MathFn(p) => lib.prim(p, Arg(args, 0))
    case Sec => Div(Finite(1.0), lib.prim(Cos, Arg(args, 0)))
    case Csc => Div(Finite(1.0), lib.prim(Sin, Arg(args, 0)))
    case Cot => Div(Finite(1.0), lib.prim(Tan, Arg(args, 0)))
    case Logb => Div(lib.prim(Ln, Arg(args, 1)), lib.prim(Ln, Arg(args, 0)))
  }

  /** Calls through the registry: `log` is the decimal logarithm like
      `log10`, and `ln` the natural one; `logb(base, value)` is
      `ln(value) / ln(base)` and `sec` the reciprocal of `cos`; a missing
      argument reaches the routine as NaN, and an extra one is ignored. */
  lemma RegistryCalls(lib: MathLib, x: Num, y: Num)
    ensures Call(lib, Functions["log"], [x]) == Call(lib, Functions["log10"], [x]) == lib.prim(Log10, x)
    ensures Call(lib, Functions["ln"], [x]) == lib.prim(Ln, x)
    ensures Call(lib, Functions["logb"], [x, y]) == Div(lib.prim(Ln, y), lib.prim(Ln, x))
    ensures Call(lib, Functions["sec"], [x]) == Div(Finite(1.0), lib.prim(Cos, x))
    ensures Call(lib, Functions["sin"], []) == lib.prim(Sin, NaN)
    ensures Call(lib, Functions["sin"], [x, y]) == lib.prim(Sin, x)
  {
  }
}
