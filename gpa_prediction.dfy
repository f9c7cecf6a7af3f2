/** Next-semester GPA prediction (AnalyticsEngine.predict_next_gpa): a
    least-squares line through (semester index, GPA), evaluated at the next
    index and clamped to the 0.0..4.0 grading scale. The regression is
    written out in closed form over exact reals. */
module GpaPrediction {
  import opened Wrappers

  /** Sum of a sequence of reals. */
  function Sum(s: seq<real>): real {
    if s == [] then 0.0 else Sum(s[..|s| - 1]) + s[|s| - 1]
  }

  /** 0 + 1 + ... + (n - 1). */
  function IndexSum(n: nat): real {
    if n == 0 then 0.0 else IndexSum(n - 1) + (n - 1) as real
  }

  /** Sum over i < n of (i - xm)^2. */
  function SquaredDeviations(n: nat, xm: real): real {
    if n == 0 then 0.0 else SquaredDeviations(n - 1, xm) + ((n - 1) as real - xm) * ((n - 1) as real - xm)
  }

  /** Sum over i < |g| of (i - xm) * (g[i] - ym). */
  function CrossDeviations(g: seq<real>, xm: real, ym: real): real {
    if g == [] then 0.0
    else CrossDeviations(g[..|g| - 1], xm, ym) + ((|g| - 1) as real - xm) * (g[|g| - 1] - ym)
  }

  /** With at least two indices the x values are not all equal, so the
      regression's denominator is positive. */
  lemma {:induction false} SquaredDeviationsPositive(n: nat, xm: real)
    requires n >= 2
    ensures SquaredDeviations(n, xm) > 0.0
  {
    if n == 2 {
      var d0, d1 := 0.0 - xm, 1.0 - xm;
      assert SquaredDeviations(1, xm) == d0 * d0;
      assert SquaredDeviations(2, xm) == d0 * d0 + d1 * d1;
      assert d0 * d0 >= 0.0 && d1 * d1 >= 0.0;
      if d0 != 0.0 {
        assert d0 * d0 > 0.0;
      } else {
        assert d1 == 1.0;
      }
    } else {
      SquaredDeviationsPositive(n - 1, xm);
      var d := (n - 1) as real - xm;
      assert d * d >= 0.0;
    }
  }

  /** The x-mean of the indices 0..n-1. */
  function IndexMean(n: nat): real
    requires n > 0
  {
    IndexSum(n) / n as real
  }

  /** The ordinary-least-squares line through (i, g[i]) evaluated at i = |g|. */
  function LeastSquaresNext(g: seq<real>): real
    requires |g| >= 2
  {
    var n := |g|;
    var xm := IndexMean(n);
    var ym := Sum(g) / n as real;
    SquaredDeviationsPositive(n, xm);
    var slope := CrossDeviations(g, xm, ym) / SquaredDeviations(n, xm);
    var intercept := ym - slope * xm;
    intercept + slope * n as real
  }

  /** `min(max(p, 0.0), 4.0)`. */
  function Clamp(p: real): (r: real)
    ensures 0.0 <= r <= 4.0
    ensures 0.0 <= p <= 4.0 ==> r == p
    ensures p < 0.0 ==> r == 0.0
    ensures p > 4.0 ==> r == 4.0
  {
    if p < 0.0 then 0.0 else if p > 4.0 then 4.0 else p
  }

  /** predict_next_gpa. `semesterGpas` is None when the student has no
      AcademicMetric row or its semester_gpas text is empty; otherwise it is
      the decoded list, which may itself be empty. */
  function PredictNextGpa(semesterGpas: Option<seq<real>>): (r: real)
    ensures semesterGpas.None? ==> r == 0.0
    ensures semesterGpas.Some? && |semesterGpas.value| == 0 ==> r == 0.0
    ensures semesterGpas.Some? && |semesterGpas.value| == 1 ==> r == semesterGpas.value[0]
    ensures semesterGpas.Some? && |semesterGpas.value| >= 2 ==>
      0.0 <= r <= 4.0 &&
      (0.0 <= LeastSquaresNext(semesterGpas.value) <= 4.0 ==> r == LeastSquaresNext(semesterGpas.value)) &&
      (LeastSquaresNext(semesterGpas.value) < 0.0 ==> r == 0.0) &&
      (LeastSquaresNext(semesterGpas.value) > 4.0 ==> r == 4.0)
  {
    match semesterGpas
    case None => 0.0
    case Some(g) =>
      if |g| < 2 then (if |g| == 1 then g[0] else 0.0)
      else Clamp(LeastSquaresNext(g))
  }

  // ---------------------------------------------------------------------
  // A perfectly linear history is extrapolated exactly.
  // ---------------------------------------------------------------------

  predicate OnLine(g: seq<real>, a: real, b: real) {
    forall i :: 0 <= i < |g| ==> g[i] == a + b * i as real
  }

  lemma {:induction false} SumOnLine(g: seq<real>, a: real, b: real)
    requires OnLine(g, a, b)
    ensures Sum(g) == a * |g| as real + b * IndexSum(|g|)
    decreases |g|
  {
    if g != [] {
      var k := |g| - 1;
      var p := g[..k];
      assert OnLine(p, a, b) by {
        forall i | 0 <= i < |p| ensures p[i] == a + b * i as real {
          assert p[i] == g[i];
        }
      }
      SumOnLine(p, a, b);
      assert g[k] == a + b * k as real;
      calc {
        Sum(g);
        Sum(p) + g[k];
        a * k as real + b * IndexSum(k) + a + b * k as real;
        a * (k as real + 1.0) + b * (IndexSum(k) + k as real);
      }
    }
  }

  lemma {:induction false} CrossOnLine(g: seq<real>, a: real, b: real, xm: real)
    requires OnLine(g, a, b)
    ensures CrossDeviations(g, xm, a + b * xm) == b * SquaredDeviations(|g|, xm)
    decreases |g|
  {
    if g != [] {
      var k := |g| - 1;
      var p := g[..k];
      assert OnLine(p, a, b) by {
        forall i | 0 <= i < |p| ensures p[i] == a + b * i as real {
          assert p[i] == g[i];
        }
      }
      CrossOnLine(p, a, b, xm);
      var d := k as real - xm;
      assert g[k] - (a + b * xm) == b * d;
      assert d * (b * d) == b * (d * d);
    }
  }

  /** If every GPA lies on the line a + b*i, the regression recovers that
      line and extrapolates it to the next semester. */
  lemma LeastSquaresOnLine(g: seq<real>, a: real, b: real)
    requires |g| >= 2
    requires OnLine(g, a, b)
    ensures LeastSquaresNext(g) == a + b * |g| as real
  {
    var n := |g|;
    var nr := n as real;
    var xm := IndexMean(n);
    SumOnLine(g, a, b);
    assert IndexSum(n) == xm * nr;
    var ym := Sum(g) / nr;
    assert Sum(g) == (a + b * xm) * nr;
    assert ym == a + b * xm;
    CrossOnLine(g, a, b, xm);
    SquaredDeviationsPositive(n, xm);
    var sxx := SquaredDeviations(n, xm);
    assert CrossDeviations(g, xm, ym) / sxx == b;
  }

  /** A linear history whose next point stays on the scale is predicted exactly. */
  lemma PredictOnLine(g: seq<real>, a: real, b: real)
    requires |g| >= 2
    requires OnLine(g, a, b)
    requires 0.0 <= a + b * |g| as real <= 4.0
    ensures PredictNextGpa(Some(g)) == a + b * |g| as real
  {
    LeastSquaresOnLine(g, a, b);
  }

  /** A flat history predicts the same GPA (slope 0). */
  lemma PredictFlat(g: seq<real>, c: real)
    requires |g| >= 2
    requires forall i :: 0 <= i < |g| ==> g[i] == c
    requires 0.0 <= c <= 4.0
    ensures PredictNextGpa(Some(g)) == c
  {
    assert OnLine(g, c, 0.0);
    PredictOnLine(g, c, 0.0);
  }

  /** The history 3.0, 3.2, 3.4, 3.6 predicts 3.8. */
  lemma PredictSteadyRise()
    ensures PredictNextGpa(Some([3.0, 3.2, 3.4, 3.6])) == 3.8
  {
    var g := [3.0, 3.2, 3.4, 3.6];
    assert OnLine(g, 3.0, 0.2) by {
      forall i | 0 <= i < 4 ensures g[i] == 3.0 + 0.2 * i as real {
        if i == 0 {} else if i == 1 {} else if i == 2 {} else {}
      }
    }
    PredictOnLine(g, 3.0, 0.2);
  }
}
