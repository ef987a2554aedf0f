/** What the detection rules promise: where verticals and holes can and
    must appear, the horizontal candidates, and the deduplication's
    order, coverage and separation. */
module FeaturesProperties {
  import opened Wrappers
  import opened Numeric
  import opened Features

  // ---- one sample ----

  /** Only two shapes of sample yield anything: an undefined centre between
      two defined neighbours, or three defined values with a centre beyond
      a hundred view heights. */
  lemma OnlyTwoShapesDetect(w: Window, y1: Option<real>, y2: Option<real>, y3: Option<real>)
    requires !Classify(w, y1, y2, y3).Plain?
    ensures (y2.None? && y1.Some? && y3.Some?)
         || (y1.Some? && y2.Some? && y3.Some? && Abs(y2.value) > Abs(w.yMax - w.yMin) * 100.0)
  {
  }

  /** A pole beside a defined centre needs a strict sign change next to it. */
  lemma DefinedPoleNeedsSignChange(w: Window, y1: real, y2: real, y3: real)
    requires Classify(w, Some(y1), Some(y2), Some(y3)).Pole?
    ensures y2 != 0.0 && (y1 * y2 < 0.0 || y2 * y3 < 0.0)
  {
    SignChangeIsNegativeProduct(y1, y2);
    SignChangeIsNegativeProduct(y2, y3);
  }

  /** An undefined centre between values of strictly opposite sign is a
      vertical asymptote, whatever the view. */
  lemma OppositeSignsArePole(w: Window, a: real, b: real)
    requires a * b < 0.0
    ensures Classify(w, Some(a), None, Some(b)) == Pole
  {
    SignChangeIsNegativeProduct(a, b);
  }

  /** Around an undefined centre the rule for a vertical asymptote, both
      ways: the neighbours change sign strictly, or they differ by more
      than one and a half view heights. */
  lemma UndefinedCentrePole(w: Window, a: real, b: real)
    ensures Classify(w, Some(a), None, Some(b)) == Pole
        <==> SignChange(a, b) || Abs(b - a) > (w.yMax - w.yMin) * 1.5
  {
  }

  /** At a defined centre the rule for a vertical asymptote, both ways: the
      centre is beyond a hundred view heights and changes sign strictly
      against one of its neighbours. */
  lemma DefinedCentrePole(w: Window, y1: real, y2: real, y3: real)
    ensures Classify(w, Some(y1), Some(y2), Some(y3)) == Pole
        <==> Abs(y2) > Abs(w.yMax - w.yMin) * 100.0 && (SignChange(y1, y2) || SignChange(y2, y3))
  {
  }

  /** A hole lies strictly between its defined neighbours' average bounds:
      no sign change, a jump under half the view height, and a height
      under five view heights; so a view with `yMax <= yMin` finds none. */
  lemma GapConditions(w: Window, y1: Option<real>, y2: Option<real>, y3: Option<real>)
    requires Classify(w, y1, y2, y3).Gap?
    ensures y2.None? && y1.Some? && y3.Some?
    ensures Classify(w, y1, y2, y3).y == (y1.value + y3.value) / 2.0
    ensures !SignChange(y1.value, y3.value)
    ensures Abs(y3.value - y1.value) < (w.yMax - w.yMin) * 0.5
    ensures Abs(Classify(w, y1, y2, y3).y) < Abs(w.yMax - w.yMin) * 5.0
    ensures w.yMax > w.yMin
  {
  }

  /** A point missing from an otherwise continuous curve (both neighbours
      equal) is a hole exactly when it is within five view heights. */
  lemma RemovableDiscontinuity(w: Window, v: real)
    requires w.yMax > w.yMin
    ensures Classify(w, Some(v), None, Some(v))
         == if Abs(v) < (w.yMax - w.yMin) * 5.0 then Gap(v) else Plain
  {
    assert !SignChange(v, v);
    assert Abs(v - v) == 0.0;
  }

  // ---- the sample scan ----

  /** Sample centres step evenly across the view, from `xMin` up to but
      not including `xMax`. */
  lemma CentresInView(w: Window, i: nat)
    requires w.xMin < w.xMax && i < Samples
    ensures w.xMin <= Centre(w, i) < w.xMax
  {
    var step := Step(w);
    assert step > 0.0;
    assert (i as real) * step <= 999.0 * step;
    assert 1000.0 * step == w.xMax - w.xMin;
  }

  /** Where the verticals are: exactly at the centres classified as poles. */
  lemma {:induction false} VerticalsAt(f: real -> Option<real>, w: Window, n: nat, a: Asymptote)
    ensures a in Verticals(f, w, n)
        <==> exists i :: 0 <= i < n && Probe(f, w, i).Pole? && a == Vertical(Centre(w, i))
  {
    if n > 0 {
      var v, kind, c := Verticals(f, w, n - 1), Probe(f, w, n - 1), Centre(w, n - 1);
      assert a in Verticals(f, w, n) <==> a in v || (kind.Pole? && a == Vertical(c)) by {
        assert Verticals(f, w, n) == v + (if kind.Pole? then [Vertical(c)] else []);
      }
      VerticalsAt(f, w, n - 1, a);
      if kind.Pole? && a == Vertical(c) {
        assert 0 <= n - 1 < n && Probe(f, w, n - 1).Pole? && a == Vertical(Centre(w, n - 1));
      }
      if exists i :: 0 <= i < n && Probe(f, w, i).Pole? && a == Vertical(Centre(w, i)) {
        var i :| 0 <= i < n && Probe(f, w, i).Pole? && a == Vertical(Centre(w, i));
        assert i < n - 1 || (kind.Pole? && a == Vertical(c));
      }
    }
  }

  /** Where the holes are: exactly at the centres classified as gaps, at
      the gap's height. */
  lemma {:induction false} HolesAt(f: real -> Option<real>, w: Window, n: nat, h: Hole)
    ensures h in Holes(f, w, n)
        <==> exists i :: 0 <= i < n && Probe(f, w, i) == Gap(h.y) && h.x == Centre(w, i)
  {
    if n > 0 {
      var v, kind, c := Holes(f, w, n - 1), Probe(f, w, n - 1), Centre(w, n - 1);
      assert h in Holes(f, w, n) <==> h in v || (kind == Gap(h.y) && h.x == c) by {
        assert Holes(f, w, n) == v + (if kind.Gap? then [Hole(c, kind.y)] else []);
      }
      HolesAt(f, w, n - 1, h);
      if h in v {
        var i :| 0 <= i < n - 1 && Probe(f, w, i) == Gap(h.y) && h.x == Centre(w, i);
        assert 0 <= i < n && Probe(f, w, i) == Gap(h.y) && h.x == Centre(w, i);
      } else if kind == Gap(h.y) && h.x == c {
        assert 0 <= n - 1 < n && Probe(f, w, n - 1) == Gap(h.y) && h.x == Centre(w, n - 1);
      }
      if exists i :: 0 <= i < n && Probe(f, w, i) == Gap(h.y) && h.x == Centre(w, i) {
        var i :| 0 <= i < n && Probe(f, w, i) == Gap(h.y) && h.x == Centre(w, i);
        if i < n - 1 {
          assert h in v;
        } else {
          assert kind == Gap(h.y) && h.x == c;
        }
      }
    }
  }

  /** In a view of positive width, verticals come out left to right, one
      per centre at most. */
  lemma {:induction false} VerticalsIncreasing(f: real -> Option<real>, w: Window, n: nat)
    requires w.xMin < w.xMax
    ensures |Verticals(f, w, n)| <= n
    ensures forall k :: 0 <= k < |Verticals(f, w, n)| ==> Verticals(f, w, n)[k].Vertical?
    ensures forall j, k :: 0 <= j < k < |Verticals(f, w, n)| ==> Verticals(f, w, n)[j].x < Verticals(f, w, n)[k].x
    ensures forall k :: 0 <= k < |Verticals(f, w, n)| ==> Verticals(f, w, n)[k].x <= Centre(w, n) - Step(w)
  {
    if n > 0 {
      VerticalsIncreasing(f, w, n - 1);
      var v, c := Verticals(f, w, n - 1), Centre(w, n - 1);
      CentreNext(w, n - 1);
      var V := Verticals(f, w, n);
      assert V == v + (if Probe(f, w, n - 1).Pole? then [Vertical(c)] else []);
      forall k | 0 <= k < |V|
        ensures V[k].Vertical? && V[k].x <= c
      {
        if k < |v| {
          assert V[k] == v[k];
        }
      }
      forall j, k | 0 <= j < k < |V|
        ensures V[j].x < V[k].x
      {
        assert V[j] == v[j];
        if k < |v| {
          assert V[k] == v[k];
        }
      }
    }
  }

  /** Consecutive centres are one positive step apart. */
  lemma CentreNext(w: Window, i: nat)
    requires w.xMin < w.xMax
    ensures Step(w) > 0.0 && Centre(w, i + 1) == Centre(w, i) + Step(w)
  {
    assert (i + 1) as real * Step(w) == (i as real) * Step(w) + Step(w);
  }

  /** A centre is either a vertical or a hole, never both. */
  lemma VerticalsAndHolesDisjoint(f: real -> Option<real>, w: Window, x: real, y: real)
    requires w.xMin < w.xMax
    ensures !(Vertical(x) in Verticals(f, w, Samples) && Hole(x, y) in Holes(f, w, Samples))
  {
    VerticalsAt(f, w, Samples, Vertical(x));
    HolesAt(f, w, Samples, Hole(x, y));
    if Vertical(x) in Verticals(f, w, Samples) && Hole(x, y) in Holes(f, w, Samples) {
      var i :| 0 <= i < Samples && Probe(f, w, i).Pole? && Vertical(x) == Vertical(Centre(w, i));
      var j :| 0 <= j < Samples && Probe(f, w, j) == Gap(y) && x == Centre(w, j);
      CentreInjective(w, i, j);
    }
  }

  lemma CentreInjective(w: Window, i: nat, j: nat)
    requires w.xMin < w.xMax && Centre(w, i) == Centre(w, j)
    ensures i == j
  {
    assert (i as real) * Step(w) == (j as real) * Step(w);
  }

  // ---- horizontal candidates ----

  /** At most two horizontals, each within 1000 of the axis, and when
      there are two they are more than 0.1 apart. */
  lemma HorizontalsShape(leftY: Option<real>, rightY: Option<real>)
    ensures |Horizontals(leftY, rightY)| <= 2
    ensures forall a :: a in Horizontals(leftY, rightY) ==> a.Horizontal? && Abs(a.y) < 1000.0
    ensures |Horizontals(leftY, rightY)| == 2
        ==> Abs(Horizontals(leftY, rightY)[1].y - Horizontals(leftY, rightY)[0].y) > 0.1
  {
  }

  /** The right value is dropped when the function is undefined on the
      left and the right value is within 0.1 of zero. */
  lemma RightNearZeroDropped(rightY: real)
    requires Abs(rightY) <= 0.1
    ensures Horizontals(None, Some(rightY)) == []
  {
  }

  // ---- deduplication ----

  /** `r` is `s` with some elements left out, at the positions `idx`. */
  predicate Picks(r: seq<Asymptote>, s: seq<Asymptote>, idx: seq<nat>) {
    |idx| == |r|
    && (forall k :: 0 <= k < |idx| ==> idx[k] < |s| && r[k] == s[idx[k]])
    && (forall j, k :: 0 <= j < k < |idx| ==> idx[j] < idx[k])
  }

  /** The result is an order-preserving subsequence of the input. */
  lemma {:induction false} DedupSubsequence(t: real, s: seq<Asymptote>) returns (idx: seq<nat>)
    ensures Picks(Dedup(t, s), s, idx)
    decreases |s|
  {
    if s == [] {
      idx := [];
    } else {
      var p := s[..|s| - 1];
      var prev := DedupSubsequence(t, p);
      if DuplicatedIn(t, Dedup(t, p), s[|s| - 1]) {
        idx := prev;
      } else {
        idx := prev + [|s| - 1];
      }
      forall k | 0 <= k < |prev|
        ensures prev[k] < |s| && Dedup(t, s)[k] == s[prev[k]]
      {
        assert s[prev[k]] == p[prev[k]];
      }
    }
  }

  /** The first feature is always kept. */
  lemma {:induction false} DedupKeepsFirst(t: real, s: seq<Asymptote>)
    requires s != []
    ensures Dedup(t, s) != [] && Dedup(t, s)[0] == s[0]
    decreases |s|
  {
    if |s| > 1 {
      var p := s[..|s| - 1];
      DedupKeepsFirst(t, p);
    }
  }

  /** Deduplicating a prefix of the input gives a prefix of the result:
      later features never change what was kept before them. */
  lemma {:induction false} DedupPrefix(t: real, s: seq<Asymptote>, k: nat)
    requires k <= |s|
    ensures Dedup(t, s[..k]) <= Dedup(t, s)
    decreases |s|
  {
    if k < |s| {
      var p := s[..|s| - 1];
      assert p[..k] == s[..k];
      DedupPrefix(t, p, k);
      assert Dedup(t, p) <= Dedup(t, s);
    } else {
      assert s[..k] == s;
    }
  }

  /** The first occurrence wins: each input feature either is duplicated by
      a feature kept before it, or is kept, right after the features kept
      before it. */
  lemma {:induction false} DedupCovers(t: real, s: seq<Asymptote>)
    ensures forall k :: 0 <= k < |s| ==>
      DuplicatedIn(t, Dedup(t, s[..k]), s[k]) || Dedup(t, s[..k]) + [s[k]] <= Dedup(t, s)
  {
    forall k | 0 <= k < |s|
      ensures DuplicatedIn(t, Dedup(t, s[..k]), s[k]) || Dedup(t, s[..k]) + [s[k]] <= Dedup(t, s)
    {
      var q := s[..k + 1];
      assert q[..|q| - 1] == s[..k] && q[|q| - 1] == s[k];
      DedupPrefix(t, s, k + 1);
    }
  }

  /** No kept feature duplicates a later kept one. */
  lemma {:induction false} DedupSeparated(t: real, s: seq<Asymptote>)
    ensures forall j, k :: 0 <= j < k < |Dedup(t, s)| ==> !Duplicates(t, Dedup(t, s)[j], Dedup(t, s)[k])
    decreases |s|
  {
    if s != [] {
      var p := s[..|s| - 1];
      DedupSeparated(t, p);
      var u := Dedup(t, p);
      if !DuplicatedIn(t, u, s[|s| - 1]) {
        forall j | 0 <= j < |u|
          ensures !Duplicates(t, u[j], s[|s| - 1])
        {
          assert u[j] in u;
        }
      }
    }
  }

  /** A sequence already separated comes back unchanged. */
  lemma {:induction false} DedupOfSeparated(t: real, s: seq<Asymptote>)
    requires forall j, k :: 0 <= j < k < |s| ==> !Duplicates(t, s[j], s[k])
    ensures Dedup(t, s) == s
    decreases |s|
  {
    if s != [] {
      var p, a := s[..|s| - 1], s[|s| - 1];
      assert forall j, k :: 0 <= j < k < |p| ==> !Duplicates(t, p[j], p[k]) by {
        forall j, k | 0 <= j < k < |p|
          ensures !Duplicates(t, p[j], p[k])
        {
          assert p[j] == s[j] && p[k] == s[k];
        }
      }
      DedupOfSeparated(t, p);
      assert !DuplicatedIn(t, p, a) by {
        forall u | u in p
          ensures !Duplicates(t, u, a)
        {
          var j :| 0 <= j < |p| && p[j] == u;
          assert s[j] == u;
        }
      }
      assert p + [a] == s;
    }
  }

  /** Deduplicating twice is deduplicating once. */
  lemma DedupIdempotent(t: real, s: seq<Asymptote>)
    ensures Dedup(t, Dedup(t, s)) == Dedup(t, s)
  {
    DedupSeparated(t, s);
    DedupOfSeparated(t, Dedup(t, s));
  }

  /** The verticals of `s`, in order. */
  function VerticalsOf(s: seq<Asymptote>): (r: seq<Asymptote>)
    ensures forall a :: a in r <==> a in s && a.Vertical?
    decreases |s|
  {
    if s == [] then []
    else VerticalsOf(s[..|s| - 1]) + (if s[|s| - 1].Vertical? then [s[|s| - 1]] else [])
  }

  /** The horizontals of `s`, in order. */
  function HorizontalsOf(s: seq<Asymptote>): (r: seq<Asymptote>)
    ensures forall a :: a in r <==> a in s && a.Horizontal?
    decreases |s|
  {
    if s == [] then []
    else HorizontalsOf(s[..|s| - 1]) + (if s[|s| - 1].Horizontal? then [s[|s| - 1]] else [])
  }

  lemma VerticalsOfSnoc(s: seq<Asymptote>, a: Asymptote)
    ensures VerticalsOf(s + [a]) == VerticalsOf(s) + (if a.Vertical? then [a] else [])
  {
    assert (s + [a])[..|s|] == s;
  }

  lemma HorizontalsOfSnoc(s: seq<Asymptote>, a: Asymptote)
    ensures HorizontalsOf(s + [a]) == HorizontalsOf(s) + (if a.Horizontal? then [a] else [])
  {
    assert (s + [a])[..|s|] == s;
  }

  /** Features of different types never suppress each other: the verticals
      kept are those a deduplication of the verticals alone keeps, and the
      same for horizontals. */
  lemma {:induction false} DedupTypesIndependent(t: real, s: seq<Asymptote>)
    ensures VerticalsOf(Dedup(t, s)) == Dedup(t, VerticalsOf(s))
    ensures HorizontalsOf(Dedup(t, s)) == Dedup(t, HorizontalsOf(s))
    decreases |s|
  {
    if s != [] {
      var p, a := s[..|s| - 1], s[|s| - 1];
      assert s == p + [a];
      DedupTypesIndependent(t, p);
      var u := Dedup(t, p);
      VerticalsOfSnoc(p, a);
      HorizontalsOfSnoc(p, a);
      VerticalsOfSnoc(u, a);
      HorizontalsOfSnoc(u, a);
      if a.Vertical? {
        assert DuplicatedIn(t, u, a) <==> DuplicatedIn(t, VerticalsOf(u), a) by {
          if DuplicatedIn(t, u, a) {
            var v :| v in u && Duplicates(t, v, a);
            assert v in VerticalsOf(u);
          }
        }
        assert VerticalsOf(s)[..|VerticalsOf(s)| - 1] == VerticalsOf(p);
        assert HorizontalsOf(s) == HorizontalsOf(p);
      } else {
        assert DuplicatedIn(t, u, a) <==> DuplicatedIn(t, HorizontalsOf(u), a) by {
          if DuplicatedIn(t, u, a) {
            var v :| v in u && Duplicates(t, v, a);
            assert v in HorizontalsOf(u);
          }
        }
        assert HorizontalsOf(s)[..|HorizontalsOf(s)| - 1] == HorizontalsOf(p);
        assert VerticalsOf(s) == VerticalsOf(p);
      }
    }
  }
}
