/** The decision rules of `Grapher.detectAsymptotesAndHoles` and
    `Grapher.deduplicateAsymptotes`, over a sampled function
    `f: real -> Option<real>` whose `None` is `evaluateFunction`'s `null`. */
module Features {
  import opened Wrappers
  import opened Numeric

  /** `{type: "vertical", x}` and `{type: "horizontal", y}`. */
  datatype Asymptote = Vertical(x: real) | Horizontal(y: real)

  /** A removable discontinuity `{x, y}`. */
  datatype Hole = Hole(x: real, y: real)

  /** The view bounds the detection reads. */
  datatype Window = Window(xMin: real, xMax: real, yMin: real, yMax: real)

  /** `samples`: the number of sample centres. */
  const Samples: nat := 1000

  function Step(w: Window): real {
    (w.xMax - w.xMin) / (Samples as real)
  }

  /** The `i`-th sample centre, `xMin + i * step`. */
  function Centre(w: Window, i: nat): real {
    w.xMin + (i as real) * Step(w)
  }

  /** Strictly opposite signs; a zero is never part of a sign change. */
  predicate SignChange(a: real, b: real) {
    (a > 0.0 && b < 0.0) || (a < 0.0 && b > 0.0)
  }

  lemma SignChangeIsNegativeProduct(a: real, b: real)
    ensures SignChange(a, b) <==> a * b < 0.0
  {
    if a > 0.0 && b > 0.0 {
      assert a * b > 0.0;
    } else if a < 0.0 && b < 0.0 {
      assert a * b == (-a) * (-b) > 0.0;
    } else if a > 0.0 && b < 0.0 {
      assert a * (-b) > 0.0;
    } else if a < 0.0 && b > 0.0 {
      assert (-a) * b > 0.0;
    }
  }

  /** What one sample centre contributes. */
  datatype SampleKind = Plain | Pole | Gap(y: real)

  /** The verdict on the values left of, at and right of a centre. */
  function Classify(w: Window, y1: Option<real>, y2: Option<real>, y3: Option<real>): SampleKind {
    var height := w.yMax - w.yMin;
    if y2.None? && y1.Some? && y3.Some? then
      var a, b := y1.value, y3.value;
      if SignChange(a, b) || Abs(b - a) > height * 1.5 then Pole
      else if Abs(b - a) < height * 0.5 then
        var avg := (a + b) / 2.0;
        if Abs(avg) < Abs(height) * 5.0 then Gap(avg) else Plain
      else Plain
    else if y1.Some? && y2.Some? && y3.Some? then
      if Abs(y2.value) > Abs(height) * 100.0
         && (SignChange(y1.value, y2.value) || SignChange(y2.value, y3.value))
      then Pole
      else Plain
    else Plain
  }

  /** Sample `i`: probed half a step to the left, at the centre and half a
      step to the right. */
  function Probe(f: real -> Option<real>, w: Window, i: nat): SampleKind {
    var x := Centre(w, i);
    Classify(w, f(x - Step(w) * 0.5), f(x), f(x + Step(w) * 0.5))
  }

  /** The probe at centre `i`, given the three samples around it. */
  lemma ProbeOf(f: real -> Option<real>, w: Window, i: nat, y1: Option<real>, y2: Option<real>, y3: Option<real>)
    requires y1 == f(Centre(w, i) - Step(w) * 0.5) && y2 == f(Centre(w, i)) && y3 == f(Centre(w, i) + Step(w) * 0.5)
    ensures Probe(f, w, i) == Classify(w, y1, y2, y3)
  {
  }

  /** The vertical asymptotes pushed by the first `n` samples, in order. */
  function Verticals(f: real -> Option<real>, w: Window, n: nat): seq<Asymptote> {
    if n == 0 then []
    else Verticals(f, w, n - 1) + (if Probe(f, w, n - 1).Pole? then [Vertical(Centre(w, n - 1))] else [])
  }

  /** The holes pushed by the first `n` samples, in order. */
  function Holes(f: real -> Option<real>, w: Window, n: nat): seq<Hole> {
    if n == 0 then []
    else Holes(f, w, n - 1) + (if Probe(f, w, n - 1).Gap? then [Hole(Centre(w, n - 1), Probe(f, w, n - 1).y)] else [])
  }

  /** The horizontal candidates from the values at `xMin - 100` and
      `xMax + 100`; `leftY || 0` reads an undefined left value as 0. */
  function Horizontals(leftY: Option<real>, rightY: Option<real>): seq<Asymptote> {
    var left := if leftY.Some? && Abs(leftY.value) < 1000.0 then [Horizontal(leftY.value)] else [];
    var base := if leftY.Some? then leftY.value else 0.0;
    var right :=
      if rightY.Some? && Abs(rightY.value) < 1000.0 && Abs(rightY.value - base) > 0.1
      then [Horizontal(rightY.value)] else [];
    left + right
  }

  /** The distance under which two verticals are the same: 2% of the
      x range. */
  function Threshold(w: Window): real {
    (w.xMax - w.xMin) * 0.02
  }

  /** Whether `a` repeats the already kept `u`: same type, and closer than
      the threshold (verticals, by x) or than 0.5 (horizontals, by y). */
  predicate Duplicates(t: real, u: Asymptote, a: Asymptote) {
    match (u, a)
    case (Vertical(ux), Vertical(ax)) => Abs(ux - ax) < t
    case (Horizontal(uy), Horizontal(ay)) => Abs(uy - ay) < 0.5
    case _ => false
  }

  /** `unique.some(u => ...)`. */
  predicate DuplicatedIn(t: real, unique: seq<Asymptote>, a: Asymptote) {
    exists u :: u in unique && Duplicates(t, u, a)
  }

  /** `deduplicateAsymptotes`: each feature is kept unless a feature kept
      before it duplicates it. */
  function Dedup(t: real, s: seq<Asymptote>): seq<Asymptote>
    decreases |s|
  {
    if s == [] then []
    else
      var unique := Dedup(t, s[..|s| - 1]);
      if DuplicatedIn(t, unique, s[|s| - 1]) then unique else unique + [s[|s| - 1]]
  }

  /** The asymptotes `detectAsymptotesAndHoles` leaves on the function. */
  function DetectedAsymptotes(f: real -> Option<real>, w: Window): seq<Asymptote> {
    Dedup(Threshold(w), Verticals(f, w, Samples) + Horizontals(f(w.xMin - 100.0), f(w.xMax + 100.0)))
  }

  /** `DetectedAsymptotes` from the candidates it deduplicates. */
  lemma DetectedAsymptotesOf(f: real -> Option<real>, w: Window, verticals: seq<Asymptote>, leftY: Option<real>, rightY: Option<real>)
    requires verticals == Verticals(f, w, Samples) && leftY == f(w.xMin - 100.0) && rightY == f(w.xMax + 100.0)
    ensures DetectedAsymptotes(f, w) == Dedup(Threshold(w), verticals + Horizontals(leftY, rightY))
  {
  }

  /** The holes it leaves; they are not deduplicated. */
  function DetectedHoles(f: real -> Option<real>, w: Window): seq<Hole> {
    Holes(f, w, Samples)
  }
}
