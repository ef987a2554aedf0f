/** The `Grapher` state the core reads and updates: the view bounds, the
    drawing size, the pan state and each plotted function's detected
    features. */
module Graphing {
  import opened Wrappers
  import opened Numeric
  import opened Compiled
  import opened Features
  import opened Coordinates

  /** What `evaluateFunction` makes of a compiled expression at `x`: the
      value when evaluation succeeds with a finite number, and `None`
      (`null`) when there is no expression, evaluation fails or the value
      is not finite. */
  function Sample(parsed: CompiledExpression?, x: real): Option<real> {
    if parsed == null then None
    else match EvaluateTokens(parsed.lib, map["x" := Finite(x)], parsed.tokens)
      case Ok(Finite(v)) => Some(v)
      case _ => None
  }

  /** The sampled function the detection works on. */
  function Sampler(parsed: CompiledExpression?): real -> Option<real> {
    x => Sample(parsed, x)
  }

  /** Applying the sampled function is sampling. */
  lemma SamplerAt(parsed: CompiledExpression?, x: real)
    ensures Sampler(parsed)(x) == Sample(parsed, x)
  {
  }

  /** The horizontal candidates of a compiled expression: its samples 100
      units left and right of the window. */
  function FarHorizontals(parsed: CompiledExpression?, w: Window): seq<Asymptote> {
    Horizontals(Sample(parsed, w.xMin - 100.0), Sample(parsed, w.xMax + 100.0))
  }

  /** The deduplicated asymptotes of a compiled expression, from the
      verticals and the two far samples. */
  lemma DetectedFromSamples(parsed: CompiledExpression?, w: Window, verticals: seq<Asymptote>)
    requires verticals == Verticals(Sampler(parsed), w, Samples)
    ensures DetectedAsymptotes(Sampler(parsed), w) == Dedup(Threshold(w), verticals + FarHorizontals(parsed, w))
  {
    var leftY, rightY := Sample(parsed, w.xMin - 100.0), Sample(parsed, w.xMax + 100.0);
    SamplerAt(parsed, w.xMin - 100.0);
    SamplerAt(parsed, w.xMax + 100.0);
    DetectedAsymptotesOf(Sampler(parsed), w, verticals, leftY, rightY);
  }

  /** A sample is defined exactly when the compiled expression evaluates,
      at that `x`, to a finite number, and then it is that number. */
  lemma SampleDefined(parsed: CompiledExpression?, x: real, v: real)
    requires parsed != null ==> parsed.Valid()
    ensures Sample(parsed, x) == Some(v)
        <==> parsed != null && Outcome(parsed.lib, parsed.expression, map["x" := Finite(x)]) == Ok(Finite(v))
  {
  }

  /** A sample is undefined exactly when there is no expression, it fails
      or its value is not finite. */
  lemma SampleUndefined(parsed: CompiledExpression?, x: real)
    requires parsed != null ==> parsed.Valid()
    ensures Sample(parsed, x).None?
        <==> parsed == null
             || Outcome(parsed.lib, parsed.expression, map["x" := Finite(x)]).Err?
             || !Outcome(parsed.lib, parsed.expression, map["x" := Finite(x)]).value.Finite?
  {
  }

  /** One entry of the function list, with what detection leaves on it. */
  class PlotFunction {
    var parsed: CompiledExpression?
    var asymptotes: seq<Asymptote>
    var holes: seq<Hole>

    constructor (parsed: CompiledExpression?)
      ensures this.parsed == parsed && asymptotes == [] && holes == []
    {
      this.parsed := parsed;
      asymptotes := [];
      holes := [];
    }

    /** A compiled expression holds the tokens of its text. */
    predicate Valid()
      reads this
    {
      parsed != null ==> parsed.Valid()
    }
  }

  class Grapher {
    var xMin: real
    var xMax: real
    var yMin: real
    var yMax: real
    var displayWidth: real
    var displayHeight: real
    var canvasWidth: real
    var canvasHeight: real
    var isPanning: bool
    var lastPanX: real
    var lastPanY: real

    /** The initial view is `[-10, 10]` on both axes, not panning. */
    constructor (displayWidth: real, displayHeight: real, canvasWidth: real, canvasHeight: real)
      ensures xMin == -10.0 && xMax == 10.0 && yMin == -10.0 && yMax == 10.0
      ensures this.displayWidth == displayWidth && this.displayHeight == displayHeight
      ensures this.canvasWidth == canvasWidth && this.canvasHeight == canvasHeight
      ensures !isPanning && lastPanX == 0.0 && lastPanY == 0.0
    {
      xMin, xMax, yMin, yMax := -10.0, 10.0, -10.0, 10.0;
      this.displayWidth, this.displayHeight := displayWidth, displayHeight;
      this.canvasWidth, this.canvasHeight := canvasWidth, canvasHeight;
      isPanning := false;
      lastPanX, lastPanY := 0.0, 0.0;
    }

    /** The bounds detection reads. */
    function CurrentWindow(): Window
      reads this
    {
      Window(xMin, xMax, yMin, yMax)
    }

    /** The bounds and the size the coordinate maps read. */
    function CurrentView(): View
      reads this
    {
      View(xMin, xMax, yMin, yMax, OrFallback(displayWidth, canvasWidth), OrFallback(displayHeight, canvasHeight))
    }

    /** `evaluateFunction(func, x)`. */
    method EvaluateFunction(func: PlotFunction, x: real) returns (r: Option<real>)
      requires func.Valid()
      ensures r == Sample(func.parsed, x)
    {
      if func.parsed == null {
        return None;
      }
      var result := func.parsed.Evaluate(map["x" := Finite(x)]);
      match result
      case Ok(Finite(v)) => r := Some(v);
      case _ => r := None;
    }

    /** `unique.some(u => ...)`: whether a kept feature duplicates `a`. */
    method IsDuplicate(unique: seq<Asymptote>, a: Asymptote, threshold: real) returns (found: bool)
      ensures found == DuplicatedIn(threshold, unique, a)
    {
      found := false;
      var k := 0;
      while k < |unique| && !found
        invariant 0 <= k <= |unique|
        invariant found == exists j :: 0 <= j < k && Duplicates(threshold, unique[j], a)
      {
        var u := unique[k];
        if u.Vertical? != a.Vertical? {
          found := false;
        } else if a.Vertical? {
          found := Abs(u.x - a.x) < threshold;
        } else {
          found := Abs(u.y - a.y) < 0.5;
        }
        k := k + 1;
      }
      if found {
        var j :| 0 <= j < k && Duplicates(threshold, unique[j], a);
        assert unique[j] in unique;
      } else {
        forall u | u in unique
          ensures !Duplicates(threshold, u, a)
        {
          var j :| 0 <= j < |unique| && unique[j] == u;
        }
      }
    }

    /** `deduplicateAsymptotes(asymptotes)`. */
    method DeduplicateAsymptotes(asymptotes: seq<Asymptote>) returns (unique: seq<Asymptote>)
      ensures unique == Dedup(Threshold(CurrentWindow()), asymptotes)
    {
      var threshold := (xMax - xMin) * 0.02;
      unique := [];
      for i := 0 to |asymptotes|
        invariant unique == Dedup(threshold, asymptotes[..i])
      {
        var asymp := asymptotes[i];
        var isDuplicate := IsDuplicate(unique, asymp, threshold);
        if !isDuplicate {
          unique := unique + [asymp];
        }
        assert asymptotes[..i + 1][..i] == asymptotes[..i];
      }
      assert asymptotes[..|asymptotes|] == asymptotes;
    }

    /** The tests of one sample of `detectAsymptotesAndHoles` on the values
        left of, at and right of a centre: a vertical asymptote, a hole at
        the neighbours' average, or nothing. */
    method ClassifySample(y1: Option<real>, y2: Option<real>, y3: Option<real>) returns (kind: SampleKind)
      ensures kind == Classify(CurrentWindow(), y1, y2, y3)
    {
      kind := Plain;
      if y2.None? && y1.Some? && y3.Some? {
        var signChange := (y1.value > 0.0 && y3.value < 0.0) || (y1.value < 0.0 && y3.value > 0.0);
        var largeJump := Abs(y3.value - y1.value) > (yMax - yMin) * 1.5;
        if signChange || largeJump {
          kind := Pole;
        } else if Abs(y3.value - y1.value) < (yMax - yMin) * 0.5 {
          var avgY := (y1.value + y3.value) / 2.0;
          if Abs(avgY) < Abs(yMax - yMin) * 5.0 {
            kind := Gap(avgY);
          }
        }
      }

      if y1.Some? && y2.Some? && y3.Some? {
        if Abs(y2.value) > Abs(yMax - yMin) * 100.0 {
          var signChange1 := (y1.value > 0.0 && y2.value < 0.0) || (y1.value < 0.0 && y2.value > 0.0);
          var signChange2 := (y2.value > 0.0 && y3.value < 0.0) || (y2.value < 0.0 && y3.value > 0.0);
          if signChange1 || signChange2 {
            kind := Pole;
          }
        }
      }
    }

    /** The three samples of `detectAsymptotesAndHoles` around centre `i`,
        and what they classify as. */
    method ProbeKind(func: PlotFunction, i: nat) returns (x: real, kind: SampleKind)
      requires func.Valid()
      ensures x == Centre(CurrentWindow(), i)
      ensures kind == Probe(Sampler(func.parsed), CurrentWindow(), i)
    {
      ghost var f, w := Sampler(func.parsed), CurrentWindow();
      var xRange := xMax - xMin;
      var step := xRange / (Samples as real);
      x := xMin + (i as real) * step;
      assert step == Step(w) && x == Centre(w, i);
      var leftX := x - step * 0.5;
      var rightX := x + step * 0.5;
      var y1 := EvaluateFunction(func, leftX);
      var y2 := EvaluateFunction(func, x);
      var y3 := EvaluateFunction(func, rightX);
      kind := ClassifySample(y1, y2, y3);
      assert y1 == f(leftX) && y2 == f(x) && y3 == f(rightX);
      ProbeOf(f, w, i, y1, y2, y3);
    }

    /** One turn of the sample loop of `detectAsymptotesAndHoles`: centre
        `i` is probed and what it yields is pushed. */
    method ProbeCentre(func: PlotFunction, i: nat)
      requires func.Valid()
      modifies func
      ensures func.parsed == old(func.parsed)
      ensures var kind := Probe(Sampler(func.parsed), CurrentWindow(), i);
        && func.asymptotes == old(func.asymptotes) + (if kind.Pole? then [Vertical(Centre(CurrentWindow(), i))] else [])
        && func.holes == old(func.holes) + (if kind.Gap? then [Hole(Centre(CurrentWindow(), i), kind.y)] else [])
    {
      var x, kind := ProbeKind(func, i);
      match kind
      case Pole => func.asymptotes := func.asymptotes + [Vertical(x)];
      case Gap(avgY) => func.holes := func.holes + [Hole(x, avgY)];
      case Plain =>
    }

    /** The two horizontal candidates, from samples 100 units outside the
        window: the value far left if it is under 1000 in size, and the
        value far right if it is under 1000 in size and differs from the
        left one (`leftY || 0`) by more than 0.1. */
    method DetectHorizontals(func: PlotFunction)
      requires func.Valid()
      modifies func
      ensures func.parsed == old(func.parsed) && func.holes == old(func.holes)
      ensures func.asymptotes == old(func.asymptotes) + FarHorizontals(func.parsed, CurrentWindow())
    {
      var leftY := EvaluateFunction(func, xMin - 100.0);
      var rightY := EvaluateFunction(func, xMax + 100.0);
      AddHorizontals(func, leftY, rightY);
    }

    /** The two guarded pushes of horizontal asymptotes, given the two far
        samples. */
    static method AddHorizontals(func: PlotFunction, leftY: Option<real>, rightY: Option<real>)
      modifies func
      ensures func.parsed == old(func.parsed) && func.holes == old(func.holes)
      ensures func.asymptotes == old(func.asymptotes) + Horizontals(leftY, rightY)
    {
      if leftY.Some? && Abs(leftY.value) < 1000.0 {
        func.asymptotes := func.asymptotes + [Horizontal(leftY.value)];
      }
      if rightY.Some? && Abs(rightY.value) < 1000.0
         && Abs(rightY.value - (if leftY.Some? then leftY.value else 0.0)) > 0.1 {
        func.asymptotes := func.asymptotes + [Horizontal(rightY.value)];
      }
    }

    /** The sample loop of `detectAsymptotesAndHoles`: starting from no
        features, the 1000 centres are probed in order. */
    method ProbeAll(func: PlotFunction)
      requires func.Valid()
      modifies func
      ensures func.parsed == old(func.parsed)
      ensures func.asymptotes == Verticals(Sampler(func.parsed), CurrentWindow(), Samples)
      ensures func.holes == Holes(Sampler(func.parsed), CurrentWindow(), Samples)
    {
      func.asymptotes := [];
      func.holes := [];
      ghost var f := Sampler(func.parsed);
      ghost var w := CurrentWindow();

      for i := 0 to Samples
        invariant func.parsed == old(func.parsed) && func.Valid()
        invariant func.asymptotes == Verticals(f, w, i)
        invariant func.holes == Holes(f, w, i)
      {
        ProbeCentre(func, i);
      }
    }

    /** `detectAsymptotesAndHoles(func)`: the old features are dropped, the
        1000 centres are probed in order, the two horizontal candidates are
        added, and the asymptotes (but not the holes) are deduplicated. */
    method DetectAsymptotesAndHoles(func: PlotFunction)
      requires func.Valid()
      modifies func
      ensures func.parsed == old(func.parsed)
      ensures func.asymptotes == DetectedAsymptotes(Sampler(func.parsed), CurrentWindow())
      ensures func.holes == DetectedHoles(Sampler(func.parsed), CurrentWindow())
    {
      ghost var parsed, w := func.parsed, CurrentWindow();
      ProbeAll(func);
      ghost var verticals := func.asymptotes;
      assert verticals == Verticals(Sampler(parsed), w, Samples);
      DetectHorizontals(func);
      var unique := DeduplicateAsymptotes(func.asymptotes);
      DetectedFromSamples(parsed, w, verticals);
      func.asymptotes := unique;
    }

    /** `handlePan(e)` for a pointer now at `(clientX, clientY)`: while a
        pan is in progress the view moves with the pointer, and the pointer
        position is remembered; otherwise nothing changes. */
    method HandlePan(clientX: real, clientY: real)
      requires isPanning ==> OrFallback(displayWidth, canvasWidth) != 0.0 && OrFallback(displayHeight, canvasHeight) != 0.0
      modifies this
      ensures !old(isPanning) ==> unchanged(this)
      ensures old(isPanning) ==>
        CurrentView() == Pan(old(CurrentView()), clientX - old(lastPanX), clientY - old(lastPanY))
        && lastPanX == clientX && lastPanY == clientY && isPanning
      ensures displayWidth == old(displayWidth) && displayHeight == old(displayHeight)
      ensures canvasWidth == old(canvasWidth) && canvasHeight == old(canvasHeight)
    {
      if !isPanning {
        return;
      }
      var dx := clientX - lastPanX;
      var dy := clientY - lastPanY;
      var width := OrFallback(displayWidth, canvasWidth);
      var height := OrFallback(displayHeight, canvasHeight);
      var xRange := xMax - xMin;
      var yRange := yMax - yMin;
      var xShift := -(dx / width) * xRange;
      var yShift := (dy / height) * yRange;
      xMin := xMin + xShift;
      xMax := xMax + xShift;
      yMin := yMin + yShift;
      yMax := yMax + yShift;
      lastPanX := clientX;
      lastPanY := clientY;
    }
  }
}
