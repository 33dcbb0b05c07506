/**
 * Exponential smoothing, the per-frame update every animated panel and button applies:
 * `s' = s + (target - s) * f` with a fixed factor `f`, not scaled by the frame time.
 * This is what three.js `Vector3.lerp` and `MathUtils.lerp` compute; with exact reals the
 * two algebraic forms `(1 - f) * s + f * target` and `s + (target - s) * f` coincide.
 */
module Smoothing {
  import opened Vectors

  function Abs(x: real): (r: real)
    ensures r >= 0.0
  {
    if x < 0.0 then -x else x
  }

  predicate Between(r: real, a: real, b: real)
  {
    (a <= r <= b) || (b <= r <= a)
  }

  /** One smoothing step from `s` toward `target` with factor `f`. */
  function Step(s: real, target: real, f: real): (r: real)
    requires 0.0 < f <= 1.0
    ensures Between(r, s, target)
    ensures r - target == (1.0 - f) * (s - target)
  {
    StepDistance(s, target, f);
    s + (target - s) * f
  }

  lemma StepDistance(s: real, target: real, f: real)
    requires 0.0 < f <= 1.0
    ensures var r := s + (target - s) * f;
      && r - target == (1.0 - f) * (s - target)
      && Between(r, s, target)
      && Abs(r - target) == (1.0 - f) * Abs(s - target)
  {
    var k, d := 1.0 - f, s - target;
    var r := s + (target - s) * f;
    assert r - target == k * d;
    if d >= 0.0 {
      assert 0.0 <= k * d;
      assert d - k * d == f * d;
      assert 0.0 <= f * d;
    } else {
      assert k * d <= 0.0;
      assert k * d - d == f * (-d);
      assert 0.0 <= f * (-d);
    }
  }

  /**
   * The scale update of the gallery panels: `curS = scale.x || fallback`, so a scale of
   * exactly zero (falsy in JavaScript) is replaced by `fallback` before the step.
   */
  function FallbackStep(cur: real, fallback: real, target: real, f: real): (r: real)
    requires 0.0 < f <= 1.0
    ensures cur != 0.0 ==> r == Step(cur, target, f)
    ensures cur == 0.0 ==> r == Step(fallback, target, f)
  {
    Step(if cur == 0.0 then fallback else cur, target, f)
  }

  /** A positive scale driven toward a positive target never becomes zero, so the fallback is never taken again. */
  lemma FallbackStepPositive(cur: real, fallback: real, target: real, f: real)
    requires 0.0 < f <= 1.0
    requires cur > 0.0 && fallback > 0.0 && target > 0.0
    ensures FallbackStep(cur, fallback, target, f) > 0.0
  {
    var r := Step(cur, target, f);
    assert Between(r, cur, target);
  }

  /** Each step shrinks the distance to the target by exactly the factor `1 - f`, and so strictly unless it is already there. */
  lemma StepContracts(s: real, target: real, f: real)
    requires 0.0 < f <= 1.0
    ensures Abs(Step(s, target, f) - target) == (1.0 - f) * Abs(s - target)
    ensures s != target ==> Abs(Step(s, target, f) - target) < Abs(s - target)
  {
    StepDistance(s, target, f);
    if s != target {
      assert Abs(s - target) > 0.0;
      assert (1.0 - f) * Abs(s - target) < Abs(s - target) by {
        assert Abs(s - target) - (1.0 - f) * Abs(s - target) == f * Abs(s - target);
        PositiveProduct(f, Abs(s - target));
      }
    }
  }

  /** `n` consecutive frames with the same target. */
  function Iterate(s: real, target: real, f: real, n: nat): real
    requires 0.0 < f <= 1.0
  {
    if n == 0 then s else Step(Iterate(s, target, f, n - 1), target, f)
  }

  function Pow(b: real, n: nat): real
  {
    if n == 0 then 1.0 else b * Pow(b, n - 1)
  }

  /** After `n` frames the distance to the target is exactly `(1 - f)^n` times the initial one. */
  lemma {:induction false} IterateDistance(s: real, target: real, f: real, n: nat)
    requires 0.0 < f <= 1.0
    ensures Iterate(s, target, f, n) - target == Pow(1.0 - f, n) * (s - target)
  {
    if n > 0 {
      IterateDistance(s, target, f, n - 1);
      var prev, next := Iterate(s, target, f, n - 1), Iterate(s, target, f, n);
      var k, q := 1.0 - f, Pow(1.0 - f, n - 1);
      assert next == Step(prev, target, f);
      DistanceStep(prev, next, target, k, q, s - target);
      assert Pow(1.0 - f, n) == k * q;
    }
  }

  lemma DistanceStep(prev: real, next: real, target: real, k: real, q: real, d: real)
    requires prev - target == q * d && next - target == k * (prev - target)
    ensures next - target == (k * q) * d
  {
    assert k * (q * d) == (k * q) * d;
  }

  /** Bernoulli-style bound `(1 - f)^n * (1 + n·f) <= 1`, for `0 <= f <= 1`. */
  lemma {:induction false} PowBound(f: real, n: nat)
    requires 0.0 <= f <= 1.0
    ensures 0.0 <= Pow(1.0 - f, n)
    ensures Pow(1.0 - f, n) * (1.0 + (n as real) * f) <= 1.0
  {
    if n > 0 {
      PowBound(f, n - 1);
      var p := Pow(1.0 - f, n - 1);
      var m := (n - 1) as real;
      assert Pow(1.0 - f, n) == (1.0 - f) * p;
      assert 0.0 <= (1.0 - f) * p;
      // (1 - f)(1 + m·f + f) = 1 + m·f - f·(m·f + f) <= 1 + m·f
      assert (1.0 - f) * (1.0 + m * f + f) == 1.0 + m * f - f * (m * f + f);
      assert 0.0 <= f * (m * f + f);
      calc {
        Pow(1.0 - f, n) * (1.0 + (n as real) * f);
        p * ((1.0 - f) * (1.0 + m * f + f));
      <=  { assert (1.0 - f) * (1.0 + m * f + f) <= 1.0 + m * f; }
        p * (1.0 + m * f);
      <=
        1.0;
      }
    }
  }

  /**
   * Geometric convergence: holding a constant target, the smoothed value comes within any
   * `eps > 0` of it after finitely many frames.
   */
  lemma Converges(s: real, target: real, f: real, eps: real)
    requires 0.0 < f <= 1.0 && eps > 0.0
    ensures exists n: nat :: Abs(Iterate(s, target, f, n) - target) < eps
  {
    var n := FramesEnough(s, target, f, eps);
    IterateWithin(s, target, f, n, eps);
  }

  /** A number of frames after which the remaining fraction `(1 - f)^n` of the distance is below `eps`. */
  lemma FramesEnough(s: real, target: real, f: real, eps: real) returns (n: nat)
    requires 0.0 < f <= 1.0 && eps > 0.0
    ensures Pow(1.0 - f, n) * Abs(s - target) < eps
  {
    PositiveProduct(eps, f);
    n := FramesFor(Abs(s - target), eps * f);
    PowSmall(f, n, eps, Abs(s - target));
  }

  /** Once the remaining fraction of the initial distance is below `eps`, so is the distance itself. */
  lemma IterateWithin(s: real, target: real, f: real, n: nat, eps: real)
    requires 0.0 < f <= 1.0
    requires Pow(1.0 - f, n) * Abs(s - target) < eps
    ensures Abs(Iterate(s, target, f, n) - target) < eps
  {
    IterateAbs(s, target, f, n);
  }

  /** The unsigned form of `IterateDistance`. */
  lemma IterateAbs(s: real, target: real, f: real, n: nat)
    requires 0.0 < f <= 1.0
    ensures Abs(Iterate(s, target, f, n) - target) == Pow(1.0 - f, n) * Abs(s - target)
  {
    IterateDistance(s, target, f, n);
    PowBound(f, n);
    AbsProduct(Pow(1.0 - f, n), s - target);
  }

  /** Enough frames make the remaining fraction of any distance `d` smaller than `eps`. */
  lemma PowSmall(f: real, n: nat, eps: real, d: real)
    requires 0.0 < f <= 1.0 && eps > 0.0 && d >= 0.0 && (n as real) * (eps * f) > d
    ensures Pow(1.0 - f, n) * d < eps
  {
    PowBound(f, n);
    SmallMultiple(Pow(1.0 - f, n), d, n as real, f, eps);
  }

  lemma SmallMultiple(p: real, d: real, m: real, f: real, eps: real)
    requires d >= 0.0 && p >= 0.0 && p * (1.0 + m * f) <= 1.0
    requires m * (eps * f) > d && f > 0.0 && eps > 0.0
    ensures p * d < eps
  {
    EnoughFrames(m, f, eps, d);
    if p > 0.0 {
      assert p * d < p * ((1.0 + m * f) * eps);
      assert p * ((1.0 + m * f) * eps) == (p * (1.0 + m * f)) * eps;
      assert (p * (1.0 + m * f)) * eps <= eps;
    }
  }

  /** A number of frames `n` with `n·c > d`. */
  lemma FramesFor(d: real, c: real) returns (n: nat)
    requires c > 0.0
    ensures (n as real) * c > d
  {
    n := if d < 0.0 then 0 else (d / c).Floor + 1;
    if d >= 0.0 {
      BelowAfterDivision(n as real, d, c);
    }
  }

  lemma EnoughFrames(m: real, f: real, eps: real, d: real)
    requires m * (eps * f) > d && eps > 0.0
    ensures d < (1.0 + m * f) * eps
  {
    assert m * (eps * f) == (m * f) * eps;
    assert (1.0 + m * f) * eps == eps + (m * f) * eps;
  }

  lemma PositiveProduct(a: real, b: real)
    requires a > 0.0 && b > 0.0
    ensures a * b > 0.0
  {
  }

  lemma AbsProduct(p: real, x: real)
    requires p >= 0.0
    ensures Abs(p * x) == p * Abs(x)
  {
    if x < 0.0 {
      assert p * x == -(p * (-x));
    }
  }

  lemma BelowAfterDivision(m: real, d: real, c: real)
    requires c > 0.0 && m > d / c
    ensures m * c > d
  {
    assert m * c > (d / c) * c;
  }

  /** `Vector3.lerp(target, f)` applied component by component. */
  function StepVec(v: Vec3, target: Vec3, f: real): (r: Vec3)
    requires 0.0 < f <= 1.0
    ensures Between(r.x, v.x, target.x) && Between(r.y, v.y, target.y) && Between(r.z, v.z, target.z)
    ensures v == target ==> r == v
  {
    Vec3(Step(v.x, target.x, f), Step(v.y, target.y, f), Step(v.z, target.z, f))
  }
}
