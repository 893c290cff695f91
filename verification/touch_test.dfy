/** `TouchTest`: a plane mesh whose free vertices fall until they reach the
    bottom of a box collider, except over the box's footprint, and whose
    vertex nearest a touching gripper follows that gripper until it leaves. */
module TouchTest {
  import opened Outcomes
  import opened Vectors
  import opened VertexGravity
  import Closest

  /** The component's state: the mesh's vertices (local space), one velocity
      per vertex, the pinned vertex index (-1 for none) and whether a
      gripper transform is being followed. */
  datatype Touch = Touch(vertices: seq<Vec3>, velocities: seq<Vec3>, pinnedIndex: int, following: bool)

  /** What `Start` and every handler keep: one velocity per vertex, and the
      pinned index is -1 or a vertex. */
  predicate Valid(s: Touch) {
    && |s.velocities| == |s.vertices|
    && -1 <= s.pinnedIndex < |s.vertices|
  }

  /** `Start`: the mesh's vertices, all at rest, nothing pinned. */
  function Start(vertices: seq<Vec3>): (r: Touch)
    ensures Valid(r)
    ensures r.vertices == vertices
    ensures forall i :: 0 <= i < |r.velocities| ==> r.velocities[i] == Zero
    ensures r.pinnedIndex == -1 && !r.following
  {
    Touch(vertices, seq(|vertices|, _ => Zero), -1, false)
  }

  /** One iteration of `ApplyGravityToVertices`: the pinned vertex and a
      vertex over the box's footprint are left alone; any other vertex falls
      and is stopped at the bottom of the box. */
  function GravityAt(s: Touch, frame: Frame, bounds: Bounds, m: Motion, i: nat): (r: Particle)
    requires Valid(s) && i < |s.vertices|
    ensures i == s.pinnedIndex ==> r == Particle(s.vertices[i], s.velocities[i])
    ensures InFootprint(bounds, frame.toWorld(s.vertices[i])) ==> r == Particle(s.vertices[i], s.velocities[i])
    ensures i != s.pinnedIndex && !InFootprint(bounds, frame.toWorld(s.vertices[i]))
            ==> r == FallOnto(frame, Particle(s.vertices[i], s.velocities[i]), m, bounds.min.y)
  {
    var p := Particle(s.vertices[i], s.velocities[i]);
    if i == s.pinnedIndex || InFootprint(bounds, frame.toWorld(s.vertices[i])) then p
    else FallOnto(frame, p, m, bounds.min.y)
  }

  /** `ApplyGravityToVertices`. Each iteration reads and writes only its own
      index, so the loop is a per-vertex map. */
  function ApplyGravityToVertices(s: Touch, frame: Frame, bounds: Bounds, m: Motion): (r: Touch)
    requires Valid(s)
    ensures Valid(r)
    ensures |r.vertices| == |s.vertices|
    ensures r.pinnedIndex == s.pinnedIndex && r.following == s.following
    ensures forall i :: 0 <= i < |s.vertices| ==>
              Particle(r.vertices[i], r.velocities[i]) == GravityAt(s, frame, bounds, m, i)
  {
    var n := |s.vertices|;
    s.(vertices := seq(n, i requires 0 <= i < n => GravityAt(s, frame, bounds, m, i).position),
       velocities := seq(n, i requires 0 <= i < n => GravityAt(s, frame, bounds, m, i).velocity))
  }

  /** Through an invertible transform, every vertex that gravity moved ends
      at or above the bottom of the box, and the others did not move. */
  lemma {:induction false} GravityStopsAtBoxBottom(s: Touch, frame: Frame, bounds: Bounds, m: Motion, i: nat)
    requires Valid(s) && Inverse(frame) && i < |s.vertices|
    ensures var r := ApplyGravityToVertices(s, frame, bounds, m);
            || (r.vertices[i] == s.vertices[i] && r.velocities[i] == s.velocities[i])
            || frame.toWorld(r.vertices[i]).y >= bounds.min.y
  {
    var p := Particle(s.vertices[i], s.velocities[i]);
    if i != s.pinnedIndex && !InFootprint(bounds, frame.toWorld(s.vertices[i])) {
      FallOntoRests(frame, p, m, bounds.min.y);
    }
  }

  /** `Update`: gravity first, then the pinned vertex is moved onto the
      followed gripper's position (converted into the plane's local space). */
  function Update(s: Touch, frame: Frame, bounds: Bounds, m: Motion, gripperPosition: Vec3): (r: Touch)
    requires Valid(s)
    ensures Valid(r)
    ensures r.pinnedIndex == s.pinnedIndex && r.following == s.following
    ensures var g := ApplyGravityToVertices(s, frame, bounds, m);
            && r.velocities == g.velocities
            && |r.vertices| == |g.vertices|
            && (forall i :: 0 <= i < |r.vertices| && i != s.pinnedIndex ==> r.vertices[i] == g.vertices[i])
            && (s.pinnedIndex >= 0 && s.following ==> r.vertices[s.pinnedIndex] == frame.toLocal(gripperPosition))
            && (!(s.pinnedIndex >= 0 && s.following) ==> r == g)
  {
    var g := ApplyGravityToVertices(s, frame, bounds, m);
    if g.pinnedIndex >= 0 && g.following then
      g.(vertices := g.vertices[g.pinnedIndex := frame.toLocal(gripperPosition)])
    else
      g
  }

  /** Through an invertible transform, the pinned vertex of a followed
      gripper sits exactly at the gripper's world position after `Update`. */
  lemma {:induction false} PinnedVertexFollowsGripper(s: Touch, frame: Frame, bounds: Bounds, m: Motion, gripperPosition: Vec3)
    requires Valid(s) && Inverse(frame)
    requires s.pinnedIndex >= 0 && s.following
    ensures frame.toWorld(Update(s, frame, bounds, m, gripperPosition).vertices[s.pinnedIndex]) == gripperPosition
  {
    var r := Update(s, frame, bounds, m, gripperPosition);
    assert r.vertices[s.pinnedIndex] == frame.toLocal(gripperPosition);
  }

  /** Squared distance from the contact point to each vertex in world space. */
  function ContactKeys(vertices: seq<Vec3>, frame: Frame, contactPoint: Vec3): (keys: seq<real>)
    ensures |keys| == |vertices|
    ensures forall i :: 0 <= i < |vertices| ==> keys[i] == SqrDistance(contactPoint, frame.toWorld(vertices[i]))
  {
    seq(|vertices|, i requires 0 <= i < |vertices| => SqrDistance(contactPoint, frame.toWorld(vertices[i])))
  }

  /** `OnTriggerEnter` with `PinClosestVertex`: the first vertex nearest to
      the contact point becomes pinned and the gripper is followed. With no
      vertices the scan stays at index 0 and reading that vertex throws. */
  function OnTriggerEnter(s: Touch, frame: Frame, contactPoint: Vec3): (r: Result<Touch>)
    requires Valid(s)
    ensures r.Err? <==> |s.vertices| == 0
    ensures r.Ok? ==>
              && Valid(r.value)
              && 0 <= r.value.pinnedIndex
              && r.value == s.(pinnedIndex := r.value.pinnedIndex, following := true)
              && (forall j :: 0 <= j < |s.vertices| ==>
                    SqrDistance(contactPoint, frame.toWorld(s.vertices[r.value.pinnedIndex]))
                    <= SqrDistance(contactPoint, frame.toWorld(s.vertices[j])))
              && (forall j :: 0 <= j < r.value.pinnedIndex ==>
                    SqrDistance(contactPoint, frame.toWorld(s.vertices[r.value.pinnedIndex]))
                    < SqrDistance(contactPoint, frame.toWorld(s.vertices[j])))
  {
    var keys := ContactKeys(s.vertices, frame, contactPoint);
    if |s.vertices| == 0 then
      Err(IndexOutOfRange)
    else
      assert Closest.Below(keys[0], None);
      var index := Closest.FirstClosest(keys, None);
      Ok(s.(pinnedIndex := index, following := true))
  }

  /** The pinned index is the one `Closest.IsFirstClosest` singles out for
      the contact keys: the first least world distance, with no starting
      cap. */
  lemma OnTriggerEnterPicksFirstClosest(s: Touch, frame: Frame, contactPoint: Vec3)
    requires Valid(s)
    requires |s.vertices| > 0
    ensures OnTriggerEnter(s, frame, contactPoint).Ok?
    ensures Closest.IsFirstClosest(ContactKeys(s.vertices, frame, contactPoint), None,
                                   OnTriggerEnter(s, frame, contactPoint).value.pinnedIndex)
  {
    var keys := ContactKeys(s.vertices, frame, contactPoint);
    assert Closest.Below(keys[0], None);
  }

  /** `OnTriggerExit`: nothing is pinned or followed any more. */
  function OnTriggerExit(s: Touch): (r: Touch)
    requires Valid(s)
    ensures Valid(r)
    ensures r.vertices == s.vertices && r.velocities == s.velocities
    ensures r.pinnedIndex < 0 && !r.following
  {
    s.(pinnedIndex := -1, following := false)
  }
}
