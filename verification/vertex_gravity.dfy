/** The per-vertex gravity that `TouchTest` and `PlaneGravity` both apply to
    a plane mesh: a damped explicit Euler step, a footprint test against a
    box collider's bounds, and a snap back up to a floor height. */
module VertexGravity {
  import opened Vectors

  /** A mesh vertex (in the plane's local space) and its velocity. */
  datatype Particle = Particle(position: Vec3, velocity: Vec3)

  /** Gravity, damping and the frame's `Time.deltaTime`. */
  datatype Motion = Motion(gravity: real, damping: real, deltaTime: real)

  /** One frame of fall: gravity is added to the velocity, the velocity is
      damped, and the vertex moves by the new velocity times the frame time. */
  function Fall(p: Particle, m: Motion): (r: Particle)
    ensures Sub(r.position, p.position) == Scale(r.velocity, m.deltaTime)
    ensures r.velocity.x == p.velocity.x * m.damping
    ensures r.velocity.z == p.velocity.z * m.damping
    ensures r.velocity.y == (p.velocity.y + m.gravity * m.deltaTime) * m.damping
  {
    var v := Scale(Add(p.velocity, Vec3(0.0, m.gravity * m.deltaTime, 0.0)), m.damping);
    Particle(Add(p.position, Scale(v, m.deltaTime)), v)
  }

  /** Without damping a particle at rest falls `g * dt * dt` in one frame and
      its horizontal coordinates stay put. */
  lemma {:induction false} FallFromRest(position: Vec3, gravity: real, deltaTime: real)
    ensures var r := Fall(Particle(position, Zero), Motion(gravity, 1.0, deltaTime));
            && r.velocity == Vec3(0.0, gravity * deltaTime, 0.0)
            && r.position == Vec3(position.x, position.y + gravity * deltaTime * deltaTime, position.z)
  {
    var r := Fall(Particle(position, Zero), Motion(gravity, 1.0, deltaTime));
    assert r.velocity == Vec3(0.0, gravity * deltaTime, 0.0);
  }

  /** `IsVertexAboveBox`: the world position lies within the box's x and z
      ranges, bounds included; the height is not looked at. */
  predicate InFootprint(b: Bounds, w: Vec3) {
    b.min.x <= w.x <= b.max.x && b.min.z <= w.z <= b.max.z
  }

  /** The floor check after a fall: a vertex whose world height is below
      `floorY` is moved straight up to that height (through the transform)
      and stopped; any other vertex is left as it is. */
  function Snap(frame: Frame, p: Particle, floorY: real): (r: Particle)
    ensures frame.toWorld(p.position).y >= floorY ==> r == p
    ensures frame.toWorld(p.position).y < floorY ==> r.velocity == Zero
  {
    var w := frame.toWorld(p.position);
    if w.y < floorY then Particle(frame.toLocal(Vec3(w.x, floorY, w.z)), Zero) else p
  }

  /** When the transform's two conversions undo each other, a snapped vertex
      ends at or above the floor in world space, straight above where it
      was, and exactly on the floor when it was moved. */
  lemma {:induction false} SnapRestsOnFloor(frame: Frame, p: Particle, floorY: real)
    requires Inverse(frame)
    ensures var w := frame.toWorld(p.position);
            var q := frame.toWorld(Snap(frame, p, floorY).position);
            && q.y >= floorY
            && q.x == w.x && q.z == w.z
            && (w.y < floorY ==> q.y == floorY)
  {
    var w := frame.toWorld(p.position);
    if w.y < floorY {
      assert frame.toWorld(frame.toLocal(Vec3(w.x, floorY, w.z))) == Vec3(w.x, floorY, w.z);
    }
  }

  /** A fall followed by a snap at `floorY`, the step both components give a
      free vertex: unless the fall took it below the floor it is the plain
      fall, and it never ends with a velocity other than the fall's or zero. */
  function FallOnto(frame: Frame, p: Particle, m: Motion, floorY: real): (r: Particle)
    ensures frame.toWorld(Fall(p, m).position).y >= floorY ==> r == Fall(p, m)
    ensures r.velocity == Fall(p, m).velocity || r.velocity == Zero
  {
    Snap(frame, Fall(p, m), floorY)
  }

  /** Through an invertible transform, a vertex that fell and was snapped
      never ends below the floor. */
  lemma {:induction false} FallOntoRests(frame: Frame, p: Particle, m: Motion, floorY: real)
    requires Inverse(frame)
    ensures frame.toWorld(FallOnto(frame, p, m, floorY).position).y >= floorY
  {
    SnapRestsOnFloor(frame, Fall(p, m), floorY);
  }
}
