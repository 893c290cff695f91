/** `BoxCollisionConstraint`: an axis-aligned box that pushes a point back
    onto its surface when the point lies outside it. */
module BoxCollision {
  import opened Vectors
  import opened Mathf

  /** The box's world-space centre and its half-size along each axis. */
  datatype Box = Box(center: Vec3, extents: Vec3)

  /** Result of `ApplyConstraint(ref position)`: whether a correction was
      reported, and the position the reference holds afterwards. */
  datatype Correction = Correction(applied: bool, position: Vec3)

  /** `Start`: the extents are half of the serialized box size. */
  function ExtentsOf(size: Vec3): (e: Vec3)
    ensures Add(e, e) == size
  {
    Scale(size, 0.5)
  }

  /** `UpdatePosition`: the centre follows the owning transform, shifted by a
      fixed offset; the extents are left alone. */
  function UpdatePosition(box: Box, transformPosition: Vec3, offset: Vec3): (b: Box)
    ensures Sub(b.center, offset) == transformPosition
    ensures b.extents == box.extents
  {
    box.(center := Add(transformPosition, offset))
  }

  function ClampLocal(local: Vec3, e: Vec3): Vec3 {
    Vec3(Clamp(local.x, -e.x, e.x), Clamp(local.y, -e.y, e.y), Clamp(local.z, -e.z, e.z))
  }

  predicate NonNegative(e: Vec3) {
    e.x >= 0.0 && e.y >= 0.0 && e.z >= 0.0
  }

  predicate AxisInside(v: real, c: real, e: real) {
    c - e <= v <= c + e
  }

  /** The point lies in `[center - extents, center + extents]` on every axis. */
  predicate Inside(box: Box, p: Vec3) {
    && AxisInside(p.x, box.center.x, box.extents.x)
    && AxisInside(p.y, box.center.y, box.extents.y)
    && AxisInside(p.z, box.center.z, box.extents.z)
  }

  /** Within `slack` of the box on every axis. */
  predicate InsideWithin(box: Box, p: Vec3, slack: real) {
    Inside(Box(box.center, Add(box.extents, Vec3(slack, slack, slack))), p)
  }

  /** Largest distance by which an uncorrected point can lie outside the box:
      Unity's vector equality tolerance. */
  const Slack: real := 0.00001

  /** `ApplyConstraint(ref position)`. The comparison of the local and the
      clamped position is Unity's tolerant vector inequality, so a point
      outside the box by less than `Slack` is neither moved nor reported. */
  function Apply(box: Box, p: Vec3): (r: Correction)
    ensures Inside(box, p) ==> r == Correction(false, p)
    ensures !r.applied ==> r.position == p
    ensures r.applied ==> !Inside(box, p)
    ensures NonNegative(box.extents) && r.applied ==> Inside(box, r.position)
    ensures AxisInside(p.x, box.center.x, box.extents.x) ==> r.position.x == p.x
    ensures AxisInside(p.y, box.center.y, box.extents.y) ==> r.position.y == p.y
    ensures AxisInside(p.z, box.center.z, box.extents.z) ==> r.position.z == p.z
    // A corrected axis that was out of range lands on the nearer face.
    ensures r.applied && p.x < box.center.x - box.extents.x ==> r.position.x == box.center.x - box.extents.x
    ensures r.applied && p.y < box.center.y - box.extents.y ==> r.position.y == box.center.y - box.extents.y
    ensures r.applied && p.z < box.center.z - box.extents.z ==> r.position.z == box.center.z - box.extents.z
    ensures NonNegative(box.extents) && r.applied && p.x > box.center.x + box.extents.x ==>
              r.position.x == box.center.x + box.extents.x
    ensures NonNegative(box.extents) && r.applied && p.y > box.center.y + box.extents.y ==>
              r.position.y == box.center.y + box.extents.y
    ensures NonNegative(box.extents) && r.applied && p.z > box.center.z + box.extents.z ==>
              r.position.z == box.center.z + box.extents.z
  {
    var local := Sub(p, box.center);
    var clamped := ClampLocal(local, box.extents);
    if !ApproxEqual(local, clamped) then
      Correction(true, Add(box.center, clamped))
    else
      Correction(false, p)
  }

  /** A square below the tolerance bounds each of its roots. */
  lemma SmallSquare(d: real)
    requires d * d < EqualityTolerance
    ensures -Slack < d < Slack
  {
  }

  /** One axis: an offset `v` that differs by `d` from a point `c` of
      `[-e, e]`, with `d` squared below the tolerance. */
  lemma AxisWithinSlack(v: real, c: real, d: real, e: real)
    requires -e <= c <= e
    requires d == v - c
    requires d * d < EqualityTolerance
    ensures -e - Slack <= v <= e + Slack
  {
    SmallSquare(d);
  }

  /** Each term of a sum of three squares is bounded by the sum. */
  lemma SquaresBelow(a: real, b: real, c: real)
    requires a * a + b * b + c * c < EqualityTolerance
    ensures a * a < EqualityTolerance && b * b < EqualityTolerance && c * c < EqualityTolerance
  {
    assert a * a >= 0.0 && b * b >= 0.0 && c * c >= 0.0;
  }

  /** An offset that Unity's equality cannot tell from a point `c` of the
      box `[-e, e]` lies within the tolerance of the extents on every axis. */
  lemma LocalWithinSlack(local: Vec3, c: Vec3, e: Vec3)
    requires Inside(Box(Zero, e), c)
    requires ApproxEqual(local, c)
    ensures Inside(Box(Zero, Add(e, Vec3(Slack, Slack, Slack))), local)
  {
    var d := Sub(local, c);
    SquaresBelow(d.x, d.y, d.z);
    AxisWithinSlack(local.x, c.x, d.x, e.x);
    AxisWithinSlack(local.y, c.y, d.y, e.y);
    AxisWithinSlack(local.z, c.z, d.z, e.z);
  }

  /** With non-negative extents the result always lies in the box, up to
      Unity's equality tolerance. */
  lemma {:induction false} ApplyStaysNearBox(box: Box, p: Vec3)
    requires NonNegative(box.extents)
    ensures InsideWithin(box, Apply(box, p).position, Slack)
  {
    var local := Sub(p, box.center);
    var c := ClampLocal(local, box.extents);
    if ApproxEqual(local, c) {
      assert Inside(Box(Zero, box.extents), c);
      LocalWithinSlack(local, c, box.extents);
    }
  }

  /** A second application finds nothing to correct and changes nothing. */
  lemma {:induction false} ApplyIdempotent(box: Box, p: Vec3)
    requires NonNegative(box.extents)
    ensures var q := Apply(box, p).position; Apply(box, q) == Correction(false, q)
  {
    var r := Apply(box, p);
    if r.applied {
      assert Inside(box, r.position);
    }
  }

  /** The converse of "applied implies outside" fails: a point just outside
      the unit box is left where it is and no correction is reported. */
  lemma OutsideButNotApplied()
    ensures var box := Box(Zero, Vec3(1.0, 1.0, 1.0));
            var p := Vec3(1.000001, 0.0, 0.0);
            && !Inside(box, p)
            && Apply(box, p) == Correction(false, p)
  {
    var box := Box(Zero, Vec3(1.0, 1.0, 1.0));
    var p := Vec3(1.000001, 0.0, 0.0);
    var local := Sub(p, box.center);
    assert local == p;
    assert ClampLocal(local, box.extents) == Vec3(1.0, 0.0, 0.0);
    assert Sub(local, Vec3(1.0, 0.0, 0.0)) == Vec3(0.000001, 0.0, 0.0);
    assert SqrMagnitude(Vec3(0.000001, 0.0, 0.0)) == 0.000000000001;
  }

  /** A point outside the box by at least the tolerance on some axis is
      always corrected. */
  lemma {:induction false} FarOutsideIsApplied(box: Box, p: Vec3)
    requires NonNegative(box.extents)
    requires !InsideWithin(box, p, Slack)
    ensures Apply(box, p).applied
  {
    if !Apply(box, p).applied {
      ApplyStaysNearBox(box, p);
    }
  }

  /** A box of size (2, 2, 2) has extents (1, 1, 1). */
  lemma ExtentsExample()
    ensures ExtentsOf(Vec3(2.0, 2.0, 2.0)) == Vec3(1.0, 1.0, 1.0)
  {
  }

  /** A box of extents (1, 1, 1) centred at (0, 5, 0) moves the origin up to (0, 4, 0) and reports the correction. */
  lemma ClampExample()
    ensures Apply(Box(Vec3(0.0, 5.0, 0.0), Vec3(1.0, 1.0, 1.0)), Zero)
            == Correction(true, Vec3(0.0, 4.0, 0.0))
  {
    var box := Box(Vec3(0.0, 5.0, 0.0), Vec3(1.0, 1.0, 1.0));
    var local := Sub(Zero, box.center);
    assert local == Vec3(0.0, -5.0, 0.0);
    var clamped := ClampLocal(local, box.extents);
    assert clamped == Vec3(0.0, -1.0, 0.0);
    assert Sub(local, clamped) == Vec3(0.0, -4.0, 0.0);
    assert SqrMagnitude(Vec3(0.0, -4.0, 0.0)) == 16.0;
    assert !ApproxEqual(local, clamped);
    assert Add(box.center, clamped) == Vec3(0.0, 4.0, 0.0);
  }
}
