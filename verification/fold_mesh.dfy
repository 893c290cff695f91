/** `FoldMesh`: the right half of a mesh (from the centre line of its bounds)
    is mirrored to the left and lifted; toggling `fold` animates the
    vertices from their original towards their mirrored positions, eased,
    and stops half way, which stands the right half up on the fold line. */
module FoldMesh {
  import opened Outcomes
  import opened Vectors
  import opened Mathf

  /** `foldHeightFactor` in `CalculateYAdjuster`. */
  const FoldHeightFactor: real := 1.4
  /** The exponent passed to `Mathf.Pow` in `CalculateYAdjuster`. */
  const FoldExponent: real := 1.2
  /** Where the fold stops: the progress clamp's upper end. */
  const Halfway: real := 0.5

  /** `foldLineX`: the centre of the mesh bounds along x. */
  function FoldLine(b: Bounds): (line: real)
    ensures line - b.min.x == b.max.x - line
  {
    (b.min.x + b.max.x) / 2.0
  }

  /** `CalculateYAdjuster`, with `Mathf.Pow` supplied by the caller. */
  function YAdjuster(pow: (real, real) -> real, distance: real): real {
    pow(distance, FoldExponent) * FoldHeightFactor
  }

  /** The folded position `Start` prepares for one vertex: on or right of
      the line it is mirrored across the line and lifted by the y adjuster;
      left of the line it stays. */
  function FoldTarget(pow: (real, real) -> real, line: real, v: Vec3): (r: Vec3)
    ensures r.z == v.z
    ensures v.x < line ==> r == v
    ensures v.x >= line ==> r.x + v.x == 2.0 * line && r.x <= line
    ensures v.x >= line ==> r.y - v.y == YAdjuster(pow, v.x - line)
  {
    if v.x >= line then
      var d := v.x - line;
      Vec3(line - d, v.y + YAdjuster(pow, d), v.z)
    else
      v
  }

  /** `Start`: the folded counterpart of every original vertex. */
  function Prepare(pow: (real, real) -> real, original: seq<Vec3>, bounds: Bounds): (folded: seq<Vec3>)
    ensures |folded| == |original|
    ensures forall i :: 0 <= i < |original| ==> folded[i] == FoldTarget(pow, FoldLine(bounds), original[i])
  {
    seq(|original|, i requires 0 <= i < |original| => FoldTarget(pow, FoldLine(bounds), original[i]))
  }

  predicate WithinX(b: Bounds, v: Vec3) {
    b.min.x <= v.x <= b.max.x
  }

  /** When the bounds enclose the mesh, every folded vertex lies in the left
      half, between the left edge and the fold line; and when `Pow` is
      non-negative on non-negative bases, no mirrored vertex is lowered. */
  lemma {:induction false} FoldedIntoLeftHalf(pow: (real, real) -> real, original: seq<Vec3>, bounds: Bounds, i: nat)
    requires i < |original|
    requires WithinX(bounds, original[i])
    requires forall d: real :: d >= 0.0 ==> pow(d, FoldExponent) >= 0.0
    ensures var f := Prepare(pow, original, bounds)[i];
            && bounds.min.x <= f.x <= FoldLine(bounds)
            && f.y >= original[i].y
  {
    var line := FoldLine(bounds);
    var v := original[i];
    if v.x >= line {
      assert pow(v.x - line, FoldExponent) >= 0.0;
      MulNonNegative(pow(v.x - line, FoldExponent), FoldHeightFactor);
    }
  }

  /** The component's animation state. */
  datatype Fold = Fold(isFolding: bool, progress: real)

  const Initial: Fold := Fold(false, 0.0)

  /** The progress never leaves the clamp's range. */
  predicate InRange(f: Fold) {
    0.0 <= f.progress <= Halfway
  }

  /** The state after a frame, and the vertices uploaded that frame, if any. */
  datatype Shown = Shown(state: Fold, vertices: Option<seq<Vec3>>)

  /** The vertices shown at a given progress: each original vertex moved
      towards its folded counterpart by the eased progress. */
  function Blend(original: seq<Vec3>, folded: seq<Vec3>, progress: real): (r: seq<Vec3>)
    requires |folded| == |original|
    ensures |r| == |original|
    ensures forall i :: 0 <= i < |r| ==> r[i] == Lerp(original[i], folded[i], SmoothStep(0.0, 1.0, progress))
  {
    var eased := SmoothStep(0.0, 1.0, progress);
    seq(|original|, i requires 0 <= i < |original| => Lerp(original[i], folded[i], eased))
  }

  /** `Update`. A fold starts only from rest at progress 0; while folding,
      the progress advances by `deltaTime * foldSpeed`, clamped to
      [0, 0.5], a blended frame is uploaded, and reaching 0.5 ends the fold. */
  function Update(f: Fold, fold: bool, deltaTime: real, foldSpeed: real, original: seq<Vec3>, folded: seq<Vec3>): (r: Shown)
    requires |folded| == |original|
    ensures r.vertices.Some? <==> f.isFolding || (fold && f.progress == 0.0)
    ensures r.vertices.None? ==> r.state == f
    ensures r.vertices.Some? ==>
              && InRange(r.state)
              && (r.state.isFolding <==> r.state.progress < Halfway)
              && r.vertices.value == Blend(original, folded, r.state.progress)
    ensures InRange(f) ==> InRange(r.state)
    ensures InRange(f) && deltaTime * foldSpeed >= 0.0 ==> r.state.progress >= f.progress
    // The frame's advance, clamped at both ends.
    ensures r.vertices.Some? && 0.0 <= f.progress + deltaTime * foldSpeed <= Halfway ==>
              r.state.progress == f.progress + deltaTime * foldSpeed
    ensures r.vertices.Some? && f.progress + deltaTime * foldSpeed >= Halfway ==> r.state.progress == Halfway
    ensures r.vertices.Some? && f.progress + deltaTime * foldSpeed <= 0.0 ==> r.state.progress == 0.0
  {
    var started := if fold && !f.isFolding && f.progress == 0.0 then f.(isFolding := true) else f;
    if started.isFolding then
      var progress := Clamp(started.progress + deltaTime * foldSpeed, 0.0, Halfway);
      Shown(Fold(!(progress >= Halfway), progress), Some(Blend(original, folded, progress)))
    else
      Shown(started, None)
  }

  /** The fold is over: not folding, at the halfway point. */
  predicate Done(f: Fold) {
    !f.isFolding && f.progress == Halfway
  }

  /** One frame's inputs. */
  datatype Input = Input(fold: bool, deltaTime: real, foldSpeed: real)

  /** The state after a run of frames. */
  function Run(f: Fold, inputs: seq<Input>, original: seq<Vec3>, folded: seq<Vec3>): Fold
    requires |folded| == |original|
    decreases |inputs|
  {
    if |inputs| == 0 then f
    else
      var i := inputs[0];
      Run(Update(f, i.fold, i.deltaTime, i.foldSpeed, original, folded).state, inputs[1..], original, folded)
  }

  /** A finished fold never restarts: whatever the inputs, the state stays
      done. */
  lemma {:induction false} DoneIsFinal(f: Fold, inputs: seq<Input>, original: seq<Vec3>, folded: seq<Vec3>)
    requires |folded| == |original|
    requires Done(f)
    ensures Run(f, inputs, original, folded) == f
    decreases |inputs|
  {
    if |inputs| > 0 {
      var i := inputs[0];
      assert Update(f, i.fold, i.deltaTime, i.foldSpeed, original, folded).state == f;
      DoneIsFinal(f, inputs[1..], original, folded);
    }
  }

  /** From rest a single frame advancing by at least one half completes the
      fold when `fold` is set. */
  lemma {:induction false} OneLongFrameFolds(deltaTime: real, foldSpeed: real, original: seq<Vec3>, folded: seq<Vec3>)
    requires |folded| == |original|
    requires deltaTime * foldSpeed >= Halfway
    ensures Done(Update(Initial, true, deltaTime, foldSpeed, original, folded).state)
  {
  }

  /** Half way between a point and its mirror image is the mirror line. */
  lemma LerpHalfToLine(v: Vec3, f: Vec3, line: real)
    requires f.x + v.x == 2.0 * line
    ensures Lerp(v, f, 0.5).x == line
  {
    assert Clamp01(0.5) == 0.5;
  }

  /** At the halfway point the eased progress is one half. */
  lemma HalfwayBlend(original: seq<Vec3>, folded: seq<Vec3>, i: nat)
    requires |folded| == |original| && i < |original|
    ensures Blend(original, folded, Halfway)[i] == Lerp(original[i], folded[i], 0.5)
  {
    SmoothStepHalf();
  }

  /** At the halfway point every vertex sits midway between its original and
      folded positions, so every mirrored vertex lies exactly on the fold
      line: the right half stands upright over the line. */
  lemma {:induction false} HalfwayStandsOnLine(pow: (real, real) -> real, original: seq<Vec3>, bounds: Bounds, i: nat)
    requires i < |original|
    requires original[i].x >= FoldLine(bounds)
    ensures Blend(original, Prepare(pow, original, bounds), Halfway)[i].x == FoldLine(bounds)
  {
    var line := FoldLine(bounds);
    var folded := Prepare(pow, original, bounds);
    var f := folded[i];
    assert f == FoldTarget(pow, line, original[i]);
    assert f.x + original[i].x == 2.0 * line;
    LerpHalfToLine(original[i], f, line);
    HalfwayBlend(original, folded, i);
  }
}
