/** The few `Mathf` and `Vector3` helpers the core uses whose definitions are
    exact formulas, over exact reals. */
module Mathf {
  import opened Vectors

  /** `Mathf.Clamp`: below `lo` gives `lo`, otherwise above `hi` gives `hi`,
      otherwise the value itself. */
  function Clamp(v: real, lo: real, hi: real): real {
    if v < lo then lo else if v > hi then hi else v
  }

  /** `Mathf.Clamp01`. */
  function Clamp01(t: real): (r: real)
    ensures 0.0 <= r <= 1.0
    ensures 0.0 <= t <= 1.0 ==> r == t
  {
    Clamp(t, 0.0, 1.0)
  }

  /** `Mathf.SmoothStep(from, to, t)`: `t` is clamped to [0, 1] and eased by
      the cubic -2t^3 + 3t^2 before interpolating. */
  function SmoothStep(from: real, to: real, t: real): real {
    var c := Clamp01(t);
    var e := -2.0 * c * c * c + 3.0 * c * c;
    to * e + from * (1.0 - e)
  }

  lemma MulNonNegative(a: real, b: real)
    requires a >= 0.0 && b >= 0.0
    ensures a * b >= 0.0
  {
  }

  /** The cubic easing maps [0, 1] into [0, 1]. */
  lemma {:induction false} EaseBounds(c: real)
    requires 0.0 <= c <= 1.0
    ensures 0.0 <= -2.0 * c * c * c + 3.0 * c * c <= 1.0
  {
    var e := -2.0 * c * c * c + 3.0 * c * c;
    var d := 1.0 - c;
    assert e == (c * c) * (3.0 - 2.0 * c);
    assert 1.0 - e == (d * d) * (1.0 + 2.0 * c);
    MulNonNegative(c, c);
    MulNonNegative(c * c, 3.0 - 2.0 * c);
    MulNonNegative(d, d);
    MulNonNegative(d * d, 1.0 + 2.0 * c);
  }

  /** The easing from 0 to 1 stays in [0, 1]. */
  lemma {:induction false} SmoothStepRange(t: real)
    ensures 0.0 <= SmoothStep(0.0, 1.0, t) <= 1.0
  {
    var c := Clamp01(t);
    EaseBounds(c);
    var e := -2.0 * c * c * c + 3.0 * c * c;
    assert SmoothStep(0.0, 1.0, t) == 1.0 * e + 0.0 * (1.0 - e);
  }

  /** The easing from 0 to 1 is one half at one half. */
  lemma SmoothStepHalf()
    ensures SmoothStep(0.0, 1.0, 0.5) == 0.5
  {
    var c := Clamp01(0.5);
    assert c == 0.5;
    var e := -2.0 * c * c * c + 3.0 * c * c;
    assert c * c == 0.25;
    assert c * c * c == 0.125;
    assert e == 0.5;
  }

  /** `Vector3.Lerp`: the parameter is clamped to [0, 1]. */
  function Lerp(a: Vec3, b: Vec3, t: real): (r: Vec3)
    ensures t <= 0.0 ==> r == a
    ensures t >= 1.0 ==> r == b
  {
    Add(a, Scale(Sub(b, a), Clamp01(t)))
  }
}
