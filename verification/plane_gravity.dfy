/** `PlaneGravity`: every vertex of a plane mesh falls each frame; a vertex
    that started the frame over the box collider's footprint is kept from
    sinking below the box's top face. */
module PlaneGravity {
  import opened Vectors
  import opened VertexGravity

  /** The mesh's vertices (local space) and one velocity per vertex. */
  datatype Plane = Plane(vertices: seq<Vec3>, velocities: seq<Vec3>)

  predicate Valid(s: Plane) {
    |s.velocities| == |s.vertices|
  }

  /** `Start`: the mesh's vertices, all at rest. */
  function Start(vertices: seq<Vec3>): (r: Plane)
    ensures Valid(r)
    ensures r.vertices == vertices
    ensures forall i :: 0 <= i < |r.velocities| ==> r.velocities[i] == Zero
  {
    Plane(vertices, seq(|vertices|, _ => Zero))
  }

  /** One iteration of `ApplyGravityToVertices`. Both branches fall; only a
      vertex whose world position (before the fall) is over the footprint is
      snapped up to the top of the box. */
  function GravityAt(s: Plane, frame: Frame, bounds: Bounds, m: Motion, i: nat): (r: Particle)
    requires Valid(s) && i < |s.vertices|
    ensures !InFootprint(bounds, frame.toWorld(s.vertices[i])) ==> r == Fall(Particle(s.vertices[i], s.velocities[i]), m)
    ensures InFootprint(bounds, frame.toWorld(s.vertices[i])) ==> r == FallOnto(frame, Particle(s.vertices[i], s.velocities[i]), m, bounds.max.y)
  {
    var p := Particle(s.vertices[i], s.velocities[i]);
    if InFootprint(bounds, frame.toWorld(s.vertices[i])) then FallOnto(frame, p, m, bounds.max.y) else Fall(p, m)
  }

  /** `ApplyGravityToVertices` (all of `Update` but the mesh upload). Each
      iteration reads and writes only its own index. */
  function ApplyGravityToVertices(s: Plane, frame: Frame, bounds: Bounds, m: Motion): (r: Plane)
    requires Valid(s)
    ensures Valid(r)
    ensures |r.vertices| == |s.vertices|
    ensures forall i :: 0 <= i < |s.vertices| ==>
              Particle(r.vertices[i], r.velocities[i]) == GravityAt(s, frame, bounds, m, i)
  {
    var n := |s.vertices|;
    Plane(seq(n, i requires 0 <= i < n => GravityAt(s, frame, bounds, m, i).position),
          seq(n, i requires 0 <= i < n => GravityAt(s, frame, bounds, m, i).velocity))
  }

  /** Through an invertible transform, a vertex that was over the footprint
      ends the frame on or above the box's top face; one that was not is
      exactly where the plain fall puts it. */
  lemma {:induction false} FootprintRestsOnTop(s: Plane, frame: Frame, bounds: Bounds, m: Motion, i: nat)
    requires Valid(s) && Inverse(frame) && i < |s.vertices|
    ensures var r := ApplyGravityToVertices(s, frame, bounds, m);
            var p := Particle(s.vertices[i], s.velocities[i]);
            && (InFootprint(bounds, frame.toWorld(s.vertices[i])) ==> frame.toWorld(r.vertices[i]).y >= bounds.max.y)
            && (!InFootprint(bounds, frame.toWorld(s.vertices[i])) ==> r.vertices[i] == Fall(p, m).position)
  {
    var p := Particle(s.vertices[i], s.velocities[i]);
    if InFootprint(bounds, frame.toWorld(s.vertices[i])) {
      FallOntoRests(frame, p, m, bounds.max.y);
    }
  }
}
