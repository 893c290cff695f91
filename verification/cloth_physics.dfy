/** `ClothPhysics`: the particle/spring graph built from a mesh, and the
    fixed-order step that moves it. Acceleration, spring correction and the
    "smart" static collision are collaborators whose source is not part of
    this model; they enter as function-valued parameters (`Collaborators`). */
module ClothPhysics {
  import opened Outcomes
  import opened Vectors
  import BoxCollision

  /** The solver-visible state of a `PointMass`. */
  datatype PointMass = PointMass(
    position: Vec3,
    lastPosition: Vec3,
    mass: real,
    force: Vec3,
    pinConstraintScalar: real)

  /** The scalar a fresh point carries before anything pins it. */
  const InitialPinScalar: real := 1.0

  /** `new PointMass(position, mass)`: at rest, with no accumulated force. */
  function NewPoint(position: Vec3, mass: real): PointMass {
    PointMass(position, position, mass, Zero, InitialPinScalar)
  }

  /** A distance constraint between the points at indices `a` and `b`. */
  datatype Spring = Spring(a: nat, b: nat, restLength: real, stiffness: real)

  /** An entry of the smart static collision list; only its identity is
      visible to the solver. */
  datatype SmartCollider = SmartCollider(id: nat)

  /** Behaviour the solver calls but whose source is not part of this model:
      `PointMass.ComputeAcceleration`; the smart collider's correction of the
      point at an index; a spring's new endpoint positions. */
  datatype Collaborators = Collaborators(
    acceleration: PointMass -> Vec3,
    smartCorrect: (SmartCollider, nat, Vec3) -> Vec3,
    springCorrect: (Spring, PointMass, PointMass) -> (Vec3, Vec3))

  datatype Engine = Engine(
    mass: real,
    gravity: Vec3,
    damping: real,
    timestep: real,
    timestepSqrd: real,
    points: seq<PointMass>,
    springs: seq<Spring>,
    boxes: seq<BoxCollision.Box>,
    smart: seq<SmartCollider>,
    rounds: int)

  /** Every spring refers to points of the array. */
  predicate SpringsFit(springs: seq<Spring>, n: nat) {
    forall s :: s in springs ==> s.a < n && s.b < n
  }

  predicate WellFormed(e: Engine) {
    SpringsFit(e.springs, |e.points|)
  }

  // ---------------------------------------------------------------------
  // Construction
  // ---------------------------------------------------------------------

  /** The `massPerPoint` getter: zero while the point array is null,
      otherwise an equal share of the total mass. */
  function MassPerPoint(mass: real, pointCount: Option<nat>): (m: real)
    requires pointCount != Some(0)
    ensures pointCount.None? ==> m == 0.0
    ensures pointCount.Some? ==> m * (pointCount.value as real) == mass
  {
    match pointCount
    case None => 0.0
    case Some(n) => mass / (n as real)
  }

  /** `pinnedVertices != null && pinnedVertices.Contains(i)` */
  predicate IsPinned(pinned: Option<seq<int>>, i: nat) {
    pinned.Some? && i in pinned.value
  }

  /** A whole number of triangles, every corner a vertex index. Anything else
      makes the edge loop read outside one of the two arrays. */
  predicate ValidTriangles(tris: seq<int>, n: nat) {
    && |tris| % 3 == 0
    && forall k :: 0 <= k < |tris| ==> 0 <= tris[k] < n
  }

  function EdgeSpring(vs: seq<Vec3>, a: nat, b: nat, springK: real, magnitude: Vec3 -> real): Spring
    requires a < |vs| && b < |vs|
  {
    Spring(a, b, magnitude(Sub(vs[a], vs[b])), springK)
  }

  /** The edge loop: each triangle (t0, t1, t2) adds the springs (t0, t1),
      (t1, t2), (t2, t0), triangles in buffer order. `magnitude` is
      `Vector3.magnitude`. */
  function TriangleSprings(tris: seq<int>, vs: seq<Vec3>, springK: real, magnitude: Vec3 -> real): (r: seq<Spring>)
    requires ValidTriangles(tris, |vs|)
    ensures |r| == |tris|
    ensures SpringsFit(r, |vs|)
    ensures forall s :: s in r ==> s.stiffness == springK && s.restLength == magnitude(Sub(vs[s.a], vs[s.b]))
    decreases |tris|
  {
    if |tris| == 0 then
      []
    else
      var t0, t1, t2 := tris[0] as nat, tris[1] as nat, tris[2] as nat;
      [EdgeSpring(vs, t0, t1, springK, magnitude),
       EdgeSpring(vs, t1, t2, springK, magnitude),
       EdgeSpring(vs, t2, t0, springK, magnitude)]
      + TriangleSprings(tris[3..], vs, springK, magnitude)
  }

  /** Outcome of `ExtractPointsAndEdgesFromMesh`: the point array and the
      springs; or null mesh data, which is logged and leaves both unset; or
      a triangle buffer the loop cannot read, which throws. */
  datatype Extraction =
    | Extracted(points: seq<PointMass>, springs: seq<Spring>)
    | NullMeshData
    | TriangleIndexOutOfRange

  function Extract(
    verts: Option<seq<Vec3>>, tris: Option<seq<int>>, pinned: Option<seq<int>>,
    mass: real, springK: real, magnitude: Vec3 -> real): (r: Extraction)
    ensures r.NullMeshData? <==> verts.None? || tris.None?
    ensures r.TriangleIndexOutOfRange? <==>
              verts.Some? && tris.Some? && !ValidTriangles(tris.value, |verts.value|)
    ensures r.Extracted? ==>
              && |r.points| == |verts.value|
              && |r.springs| == |tris.value|
              && SpringsFit(r.springs, |r.points|)
    ensures r.Extracted? ==> forall i :: 0 <= i < |r.points| ==>
              && r.points[i].position == verts.value[i]
              && r.points[i].lastPosition == verts.value[i]
              && r.points[i].force == Zero
              && (IsPinned(pinned, i) ==> r.points[i].mass == 0.0)
              && (!IsPinned(pinned, i) ==> r.points[i].mass * (|r.points| as real) == mass)
    ensures r.Extracted? ==> forall s :: s in r.springs ==>
              && s.stiffness == springK
              && s.restLength == magnitude(Sub(r.points[s.a].position, r.points[s.b].position))
  {
    if verts.None? || tris.None? then
      NullMeshData
    else if !ValidTriangles(tris.value, |verts.value|) then
      TriangleIndexOutOfRange
    else
      var vs := verts.value;
      var n := |vs|;
      var points := seq(n, i requires 0 <= i < n =>
                          NewPoint(vs[i], if IsPinned(pinned, i) then 0.0 else MassPerPoint(mass, Some(n))));
      Extracted(points, TriangleSprings(tris.value, vs, springK, magnitude))
  }

  /** Triangle `t` of the buffer contributes springs `3t`, `3t+1`, `3t+2`,
      joining its corners cyclically. */
  lemma {:induction false} TriangleEdges(tris: seq<int>, vs: seq<Vec3>, springK: real, magnitude: Vec3 -> real, t: nat)
    requires ValidTriangles(tris, |vs|)
    requires 3 * t + 2 < |tris|
    ensures var r := TriangleSprings(tris, vs, springK, magnitude);
            && r[3 * t].a == tris[3 * t] && r[3 * t].b == tris[3 * t + 1]
            && r[3 * t + 1].a == tris[3 * t + 1] && r[3 * t + 1].b == tris[3 * t + 2]
            && r[3 * t + 2].a == tris[3 * t + 2] && r[3 * t + 2].b == tris[3 * t]
    decreases t
  {
    if t > 0 {
      var rest := tris[3..];
      assert ValidTriangles(rest, |vs|);
      TriangleEdges(rest, vs, springK, magnitude, t - 1);
      TriangleSpringsShift(tris, vs, springK, magnitude);
    }
  }

  /** Past the first triangle's three springs come the springs of the rest
      of the buffer. */
  lemma TriangleSpringsShift(tris: seq<int>, vs: seq<Vec3>, springK: real, magnitude: Vec3 -> real)
    requires ValidTriangles(tris, |vs|)
    requires |tris| > 0
    ensures ValidTriangles(tris[3..], |vs|)
    ensures var r := TriangleSprings(tris, vs, springK, magnitude);
            var tail := TriangleSprings(tris[3..], vs, springK, magnitude);
            forall j :: 0 <= j < |tail| ==> r[j + 3] == tail[j]
  {
    assert ValidTriangles(tris[3..], |vs|);
  }

  /** Each extracted point's mass: none when pinned, otherwise the total
      divided by the number of points. */
  lemma ExtractedMass(
    verts: seq<Vec3>, tris: seq<int>, pinned: Option<seq<int>>, mass: real, springK: real,
    magnitude: Vec3 -> real, i: nat)
    requires Extract(Some(verts), Some(tris), pinned, mass, springK, magnitude).Extracted?
    requires i < |verts|
    ensures Extract(Some(verts), Some(tris), pinned, mass, springK, magnitude).points[i].mass
            == (if IsPinned(pinned, i) then 0.0 else mass / (|verts| as real))
  {
    var r := Extract(Some(verts), Some(tris), pinned, mass, springK, magnitude);
    var share := MassPerPoint(mass, Some(|verts|));
    assert r.points[i] == NewPoint(verts[i], if IsPinned(pinned, i) then 0.0 else share);
    assert share == mass / (|verts| as real);
  }

  /** Outcome of the `ClothPhysics` constructor. With null mesh data the
      object exists but its point array stays null. */
  datatype Construction =
    | Constructed(engine: Engine)
    | PointsLeftNull
    | Threw(fault: Fault)

  function New(
    verts: Option<seq<Vec3>>, tris: Option<seq<int>>, mass: real, springK: real,
    gravity: Vec3, damping: real, timestep: real, pinned: Option<seq<int>>,
    boxes: seq<BoxCollision.Box>, smart: seq<SmartCollider>, rounds: int,
    magnitude: Vec3 -> real): (c: Construction)
    ensures c.PointsLeftNull? <==> verts.None? || tris.None?
    ensures c.Threw? <==> verts.Some? && tris.Some? && !ValidTriangles(tris.value, |verts.value|)
    ensures c.Constructed? ==>
              && WellFormed(c.engine)
              && c.engine.timestepSqrd == timestep * timestep
              && |c.engine.points| == |verts.value|
              && c.engine.gravity == gravity && c.engine.damping == damping
              && c.engine.boxes == boxes && c.engine.smart == smart && c.engine.rounds == rounds
    ensures c.Constructed? ==>
              var x := Extract(verts, tris, pinned, mass, springK, magnitude);
              && x.Extracted?
              && c.engine.points == x.points && c.engine.springs == x.springs
              && c.engine.mass == mass && c.engine.timestep == timestep
  {
    match Extract(verts, tris, pinned, mass, springK, magnitude)
    case NullMeshData => PointsLeftNull
    case TriangleIndexOutOfRange => Threw(IndexOutOfRange)
    case Extracted(points, springs) =>
      Constructed(Engine(mass, gravity, damping, timestep, timestep * timestep,
                         points, springs, boxes, smart, rounds))
  }

  /** The constructed engine starts at rest: every spring is exactly at its
      rest length, measured with the same `magnitude`, between the engine's
      own points. */
  lemma SpringsStartAtRest(
    verts: seq<Vec3>, tris: seq<int>, mass: real, springK: real,
    gravity: Vec3, damping: real, timestep: real, pinned: Option<seq<int>>,
    boxes: seq<BoxCollision.Box>, smart: seq<SmartCollider>, rounds: int,
    magnitude: Vec3 -> real, s: Spring)
    requires New(Some(verts), Some(tris), mass, springK, gravity, damping, timestep, pinned,
                 boxes, smart, rounds, magnitude).Constructed?
    requires s in New(Some(verts), Some(tris), mass, springK, gravity, damping, timestep, pinned,
                      boxes, smart, rounds, magnitude).engine.springs
    ensures var e := New(Some(verts), Some(tris), mass, springK, gravity, damping, timestep, pinned,
                         boxes, smart, rounds, magnitude).engine;
            && s.a < |e.points| && s.b < |e.points|
            && s.restLength == magnitude(Sub(e.points[s.a].position, e.points[s.b].position))
  {
  }

  /** The constructed engine's springs join each triangle's corners
      cyclically: triangle `t` gives springs `3t`, `3t+1`, `3t+2`. */
  lemma NewSpringEndpoints(
    verts: seq<Vec3>, tris: seq<int>, mass: real, springK: real,
    gravity: Vec3, damping: real, timestep: real, pinned: Option<seq<int>>,
    boxes: seq<BoxCollision.Box>, smart: seq<SmartCollider>, rounds: int,
    magnitude: Vec3 -> real, t: nat)
    requires New(Some(verts), Some(tris), mass, springK, gravity, damping, timestep, pinned,
                 boxes, smart, rounds, magnitude).Constructed?
    requires 3 * t + 2 < |tris|
    ensures var sp := New(Some(verts), Some(tris), mass, springK, gravity, damping, timestep, pinned,
                          boxes, smart, rounds, magnitude).engine.springs;
            && |sp| == |tris|
            && sp[3 * t].a == tris[3 * t] && sp[3 * t].b == tris[3 * t + 1]
            && sp[3 * t + 1].a == tris[3 * t + 1] && sp[3 * t + 1].b == tris[3 * t + 2]
            && sp[3 * t + 2].a == tris[3 * t + 2] && sp[3 * t + 2].b == tris[3 * t]
  {
    var x := Extract(Some(verts), Some(tris), pinned, mass, springK, magnitude);
    assert x.springs == TriangleSprings(tris, verts, springK, magnitude);
    TriangleEdges(tris, verts, springK, magnitude, t);
  }

  // ---------------------------------------------------------------------
  // The step
  // ---------------------------------------------------------------------

  /** `b` is `a` with at most the positions changed. */
  predicate OnlyPositionsDiffer(a: seq<PointMass>, b: seq<PointMass>) {
    && |a| == |b|
    && forall i :: 0 <= i < |a| ==> b[i] == a[i].(position := b[i].position)
  }

  function ResetForces(ps: seq<PointMass>): (r: seq<PointMass>)
    ensures |r| == |ps|
    ensures forall i :: 0 <= i < |ps| ==> r[i] == ps[i].(force := Zero)
  {
    seq(|ps|, i requires 0 <= i < |ps| => ps[i].(force := Zero))
  }

  function ApplyGravity(ps: seq<PointMass>, gravity: Vec3): (r: seq<PointMass>)
    ensures |r| == |ps|
    ensures forall i :: 0 <= i < |ps| ==> r[i] == ps[i].(force := Add(ps[i].force, Scale(gravity, ps[i].mass)))
  {
    seq(|ps|, i requires 0 <= i < |ps| => ps[i].(force := Add(ps[i].force, Scale(gravity, ps[i].mass))))
  }

  /** After a reset the gravity pass leaves exactly `gravity * mass` on every
      point: nothing on a point of mass zero. */
  lemma ResetThenGravity(ps: seq<PointMass>, gravity: Vec3, i: nat)
    requires i < |ps|
    ensures ApplyGravity(ResetForces(ps), gravity)[i].force == Scale(gravity, ps[i].mass)
    ensures ps[i].mass == 0.0 ==> ApplyGravity(ResetForces(ps), gravity)[i].force == Zero
  {
  }

  /** Position Verlet with damping on the previous displacement:
      `x2 = x1 + damping*(x1 - x0) + a*dt^2`, then `x0 := x1`. */
  function Integrate(ps: seq<PointMass>, damping: real, timestepSqrd: real, acceleration: PointMass -> Vec3): (r: seq<PointMass>)
    ensures |r| == |ps|
    ensures forall i :: 0 <= i < |ps| ==>
              && r[i].lastPosition == ps[i].position
              && Sub(r[i].position, ps[i].position)
                 == Add(Scale(Sub(ps[i].position, ps[i].lastPosition), damping),
                        Scale(acceleration(ps[i]), timestepSqrd))
              && r[i] == ps[i].(position := r[i].position, lastPosition := r[i].lastPosition)
  {
    seq(|ps|, i requires 0 <= i < |ps| =>
      var x1 := ps[i].position;
      var x0 := ps[i].lastPosition;
      var a := acceleration(ps[i]);
      ps[i].(position := Add(Add(x1, Scale(Sub(x1, x0), damping)), Scale(a, timestepSqrd)),
             lastPosition := x1))
  }

  /** A point at rest with no acceleration is left where it is. */
  lemma {:induction false} IntegrateAtRest(ps: seq<PointMass>, damping: real, timestepSqrd: real, acceleration: PointMass -> Vec3, i: nat)
    requires i < |ps|
    requires ps[i].position == ps[i].lastPosition
    requires acceleration(ps[i]) == Zero
    ensures Integrate(ps, damping, timestepSqrd, acceleration)[i].position == ps[i].position
    ensures Integrate(ps, damping, timestepSqrd, acceleration)[i].lastPosition == ps[i].position
  {
    var r := Integrate(ps, damping, timestepSqrd, acceleration);
    var d := Sub(r[i].position, ps[i].position);
    assert d == Add(Scale(Zero, damping), Scale(Zero, timestepSqrd));
    assert d == Zero;
    AddSubCancel(r[i].position, ps[i].position);
  }

  /** One box of the collision list, applied to every point in index order. */
  function ClampAll(ps: seq<PointMass>, box: BoxCollision.Box): (r: seq<PointMass>)
    ensures OnlyPositionsDiffer(ps, r)
    ensures forall i :: 0 <= i < |ps| ==> r[i].position == BoxCollision.Apply(box, ps[i].position).position
  {
    seq(|ps|, i requires 0 <= i < |ps| => ps[i].(position := BoxCollision.Apply(box, ps[i].position).position))
  }

  /** `ApplyCollisionConstraints`: the boxes in list order. */
  function BoxPass(ps: seq<PointMass>, boxes: seq<BoxCollision.Box>): (r: seq<PointMass>)
    ensures OnlyPositionsDiffer(ps, r)
    decreases |boxes|
  {
    if |boxes| == 0 then ps else BoxPass(ClampAll(ps, boxes[0]), boxes[1..])
  }

  /** After a box pass every point lies in the last box of the list, up to
      Unity's vector equality tolerance. */
  lemma {:induction false} BoxPassEndsNearLastBox(ps: seq<PointMass>, boxes: seq<BoxCollision.Box>, i: nat)
    requires |boxes| > 0 && i < |ps|
    requires BoxCollision.NonNegative(boxes[|boxes| - 1].extents)
    ensures BoxCollision.InsideWithin(boxes[|boxes| - 1], BoxPass(ps, boxes)[i].position, BoxCollision.Slack)
    decreases |boxes|
  {
    if |boxes| == 1 {
      BoxCollision.ApplyStaysNearBox(boxes[0], ps[i].position);
    } else {
      assert boxes[1..][|boxes[1..]| - 1] == boxes[|boxes| - 1];
      BoxPassEndsNearLastBox(ClampAll(ps, boxes[0]), boxes[1..], i);
    }
  }

  /** A second pass of one box changes nothing. */
  lemma {:induction false} ClampAllIdempotent(ps: seq<PointMass>, box: BoxCollision.Box)
    requires BoxCollision.NonNegative(box.extents)
    ensures ClampAll(ClampAll(ps, box), box) == ClampAll(ps, box)
  {
    var once := ClampAll(ps, box);
    forall i | 0 <= i < |ps|
      ensures ClampAll(once, box)[i] == once[i]
    {
      BoxCollision.ApplyIdempotent(box, ps[i].position);
    }
  }

  function SmartAll(ps: seq<PointMass>, c: SmartCollider, co: Collaborators): (r: seq<PointMass>)
    ensures OnlyPositionsDiffer(ps, r)
  {
    seq(|ps|, i requires 0 <= i < |ps| => ps[i].(position := co.smartCorrect(c, i, ps[i].position)))
  }

  /** `ApplySSCollisionConstraints`: the smart colliders in list order. */
  function SmartPass(ps: seq<PointMass>, smart: seq<SmartCollider>, co: Collaborators): (r: seq<PointMass>)
    ensures OnlyPositionsDiffer(ps, r)
    decreases |smart|
  {
    if |smart| == 0 then ps else SmartPass(SmartAll(ps, smart[0], co), smart[1..], co)
  }

  /** One spring's correction, written back to its two endpoints. */
  function ApplySpring(ps: seq<PointMass>, s: Spring, co: Collaborators): (r: seq<PointMass>)
    requires s.a < |ps| && s.b < |ps|
    ensures OnlyPositionsDiffer(ps, r)
    ensures forall i :: 0 <= i < |ps| && i != s.a && i != s.b ==> r[i] == ps[i]
  {
    var moved := co.springCorrect(s, ps[s.a], ps[s.b]);
    var ps1 := ps[s.a := ps[s.a].(position := moved.0)];
    ps1[s.b := ps1[s.b].(position := moved.1)]
  }

  /** `ApplyConstraints`: the springs in iteration order. */
  function SpringPass(ps: seq<PointMass>, springs: seq<Spring>, co: Collaborators): (r: seq<PointMass>)
    requires SpringsFit(springs, |ps|)
    ensures OnlyPositionsDiffer(ps, r)
    ensures forall i :: 0 <= i < |ps| && (forall s :: s in springs ==> s.a != i && s.b != i) ==> r[i] == ps[i]
    decreases |springs|
  {
    if |springs| == 0 then ps else SpringPass(ApplySpring(ps, springs[0], co), springs[1..], co)
  }

  /** One round of the relaxation loop: boxes, then smart colliders, then
      springs. */
  function Round(e: Engine, co: Collaborators, ps: seq<PointMass>): (r: seq<PointMass>)
    requires SpringsFit(e.springs, |ps|)
    ensures OnlyPositionsDiffer(ps, r)
  {
    SpringPass(SmartPass(BoxPass(ps, e.boxes), e.smart, co), e.springs, co)
  }

  /** `n` rounds (none when `n` is not positive). */
  function Relax(e: Engine, co: Collaborators, ps: seq<PointMass>, n: int): (r: seq<PointMass>)
    requires SpringsFit(e.springs, |ps|)
    ensures OnlyPositionsDiffer(ps, r)
    decreases n
  {
    if n <= 0 then ps else Relax(e, co, Round(e, co, ps), n - 1)
  }

  /** `ApplySelfCollisions`: an empty placeholder. */
  function SelfCollisions(ps: seq<PointMass>): seq<PointMass> {
    ps
  }

  /** `PhysicsStep`. */
  function Step(e: Engine, co: Collaborators): (r: Engine)
    requires WellFormed(e)
    ensures WellFormed(r)
    ensures r == e.(points := r.points)
    ensures |r.points| == |e.points|
    ensures forall i :: 0 <= i < |e.points| ==>
              && r.points[i].mass == e.points[i].mass
              && r.points[i].pinConstraintScalar == e.points[i].pinConstraintScalar
              && r.points[i].lastPosition == e.points[i].position
              && r.points[i].force == Scale(e.gravity, e.points[i].mass)
  {
    var forced := ApplyGravity(ResetForces(e.points), e.gravity);
    var moved := Integrate(forced, e.damping, e.timestepSqrd, co.acceleration);
    e.(points := SelfCollisions(Relax(e, co, moved, e.rounds)))
  }

  /** With no relaxation rounds only integration moves the points. */
  lemma StepWithoutRounds(e: Engine, co: Collaborators)
    requires WellFormed(e)
    requires e.rounds <= 0
    ensures Step(e, co).points
            == Integrate(ApplyGravity(ResetForces(e.points), e.gravity), e.damping, e.timestepSqrd, co.acceleration)
  {
  }

  /** A pinned point (mass 0) at rest stays put through a step without
      relaxation rounds, provided acceleration vanishes at mass 0. */
  lemma {:induction false} PinnedAtRestStaysPut(e: Engine, co: Collaborators, i: nat)
    requires WellFormed(e)
    requires e.rounds <= 0
    requires forall p: PointMass :: p.mass == 0.0 ==> co.acceleration(p) == Zero
    requires i < |e.points|
    requires e.points[i].mass == 0.0
    requires e.points[i].position == e.points[i].lastPosition
    ensures Step(e, co).points[i].position == e.points[i].position
  {
    var forced := ApplyGravity(ResetForces(e.points), e.gravity);
    assert forced[i].mass == 0.0;
    assert forced[i].position == forced[i].lastPosition;
    IntegrateAtRest(forced, e.damping, e.timestepSqrd, co.acceleration, i);
    StepWithoutRounds(e, co);
  }

  // ---------------------------------------------------------------------
  // The phase order of a step
  // ---------------------------------------------------------------------

  datatype Phase =
    | ResetForcesPhase
    | GravityPhase
    | IntegrationPhase
    | BoxCollisionPhase
    | SmartCollisionPhase
    | SpringPhase
    | SelfCollisionPhase

  function RoundPhases(n: int): seq<Phase>
    decreases n
  {
    if n <= 0 then [] else [BoxCollisionPhase, SmartCollisionPhase, SpringPhase] + RoundPhases(n - 1)
  }

  /** The order `PhysicsStep` runs its phases in. */
  function Schedule(rounds: int): seq<Phase> {
    [ResetForcesPhase, GravityPhase, IntegrationPhase] + RoundPhases(rounds) + [SelfCollisionPhase]
  }

  /** The effect of one phase on the point array. */
  function RunPhase(e: Engine, co: Collaborators, ph: Phase, ps: seq<PointMass>): (r: seq<PointMass>)
    requires SpringsFit(e.springs, |ps|)
    ensures |r| == |ps|
  {
    match ph
    case ResetForcesPhase => ResetForces(ps)
    case GravityPhase => ApplyGravity(ps, e.gravity)
    case IntegrationPhase => Integrate(ps, e.damping, e.timestepSqrd, co.acceleration)
    case BoxCollisionPhase => BoxPass(ps, e.boxes)
    case SmartCollisionPhase => SmartPass(ps, e.smart, co)
    case SpringPhase => SpringPass(ps, e.springs, co)
    case SelfCollisionPhase => SelfCollisions(ps)
  }

  /** The phases run one after another. */
  function Run(e: Engine, co: Collaborators, phases: seq<Phase>, ps: seq<PointMass>): (r: seq<PointMass>)
    requires SpringsFit(e.springs, |ps|)
    ensures |r| == |ps|
    decreases |phases|
  {
    if |phases| == 0 then ps else Run(e, co, phases[1..], RunPhase(e, co, phases[0], ps))
  }

  lemma {:induction false} RunAppend(e: Engine, co: Collaborators, a: seq<Phase>, b: seq<Phase>, ps: seq<PointMass>)
    requires SpringsFit(e.springs, |ps|)
    ensures Run(e, co, a + b, ps) == Run(e, co, b, Run(e, co, a, ps))
    decreases |a|
  {
    if |a| == 0 {
      assert a + b == b;
    } else {
      assert (a + b)[0] == a[0];
      assert (a + b)[1..] == a[1..] + b;
      RunAppend(e, co, a[1..], b, RunPhase(e, co, a[0], ps));
    }
  }

  lemma {:induction false} RelaxRunsRounds(e: Engine, co: Collaborators, ps: seq<PointMass>, n: int)
    requires SpringsFit(e.springs, |ps|)
    ensures Relax(e, co, ps, n) == Run(e, co, RoundPhases(n), ps)
    decreases n
  {
    if n > 0 {
      var one := [BoxCollisionPhase, SmartCollisionPhase, SpringPhase];
      assert RoundPhases(n) == one + RoundPhases(n - 1);
      RunAppend(e, co, one, RoundPhases(n - 1), ps);
      RunOneRound(e, co, ps);
      RelaxRunsRounds(e, co, Round(e, co, ps), n - 1);
    }
  }

  /** Running a schedule starts with its first phase. */
  lemma RunCons(e: Engine, co: Collaborators, ph: Phase, rest: seq<Phase>, ps: seq<PointMass>)
    requires SpringsFit(e.springs, |ps|)
    ensures Run(e, co, [ph] + rest, ps) == Run(e, co, rest, RunPhase(e, co, ph, ps))
  {
    assert ([ph] + rest)[0] == ph;
    assert ([ph] + rest)[1..] == rest;
  }

  lemma RunOneRound(e: Engine, co: Collaborators, ps: seq<PointMass>)
    requires SpringsFit(e.springs, |ps|)
    ensures Run(e, co, [BoxCollisionPhase, SmartCollisionPhase, SpringPhase], ps) == Round(e, co, ps)
  {
    var boxed := BoxPass(ps, e.boxes);
    var smart := SmartPass(boxed, e.smart, co);
    var sprung := SpringPass(smart, e.springs, co);
    assert [BoxCollisionPhase, SmartCollisionPhase, SpringPhase]
           == [BoxCollisionPhase] + ([SmartCollisionPhase] + ([SpringPhase] + []));
    RunCons(e, co, BoxCollisionPhase, [SmartCollisionPhase] + ([SpringPhase] + []), ps);
    RunCons(e, co, SmartCollisionPhase, [SpringPhase] + [], boxed);
    RunCons(e, co, SpringPhase, [], smart);
    assert Run(e, co, [], sprung) == sprung;
  }

  /** The three phases before the rounds: reset, gravity, integration. */
  lemma RunHead(e: Engine, co: Collaborators, ps: seq<PointMass>)
    requires SpringsFit(e.springs, |ps|)
    ensures Run(e, co, [ResetForcesPhase, GravityPhase, IntegrationPhase], ps)
            == Integrate(ApplyGravity(ResetForces(ps), e.gravity), e.damping, e.timestepSqrd, co.acceleration)
  {
    var reset := ResetForces(ps);
    var forced := ApplyGravity(reset, e.gravity);
    var moved := Integrate(forced, e.damping, e.timestepSqrd, co.acceleration);
    assert Run(e, co, [], moved) == moved;
    assert [IntegrationPhase][1..] == [];
    assert Run(e, co, [IntegrationPhase], forced) == moved;
    assert [GravityPhase, IntegrationPhase][1..] == [IntegrationPhase];
    assert Run(e, co, [GravityPhase, IntegrationPhase], reset) == moved;
    assert [ResetForcesPhase, GravityPhase, IntegrationPhase][1..] == [GravityPhase, IntegrationPhase];
  }

  /** The closing self-collision phase leaves the points as they are. */
  lemma RunTail(e: Engine, co: Collaborators, ps: seq<PointMass>)
    requires SpringsFit(e.springs, |ps|)
    ensures Run(e, co, [SelfCollisionPhase], ps) == SelfCollisions(ps)
  {
    assert [SelfCollisionPhase][1..] == [];
    assert Run(e, co, [], ps) == ps;
  }

  /** `Step` is exactly the phases of `Schedule` run in order. */
  lemma {:induction false} StepFollowsSchedule(e: Engine, co: Collaborators)
    requires WellFormed(e)
    ensures Step(e, co).points == Run(e, co, Schedule(e.rounds), e.points)
  {
    var head := [ResetForcesPhase, GravityPhase, IntegrationPhase];
    var rounds := RoundPhases(e.rounds);
    var ps := e.points;
    assert Schedule(e.rounds) == (head + rounds) + [SelfCollisionPhase];
    RunAppend(e, co, head + rounds, [SelfCollisionPhase], ps);
    RunAppend(e, co, head, rounds, ps);
    RunHead(e, co, ps);
    var moved := Run(e, co, head, ps);
    RelaxRunsRounds(e, co, moved, e.rounds);
    var relaxed := Run(e, co, rounds, moved);
    assert Run(e, co, head + rounds, ps) == relaxed;
    RunTail(e, co, relaxed);
    assert Step(e, co).points == SelfCollisions(Relax(e, co, moved, e.rounds));
  }

  /** The schedule runs reset, gravity and integration once each, then
      `rounds` times boxes, smart colliders and springs, then the
      self-collision placeholder, which changes nothing. */
  lemma {:induction false} ScheduleShape(rounds: int, k: nat)
    ensures |Schedule(rounds)| == 4 + 3 * (if rounds < 0 then 0 else rounds)
    ensures Schedule(rounds)[..3] == [ResetForcesPhase, GravityPhase, IntegrationPhase]
    ensures Schedule(rounds)[|Schedule(rounds)| - 1] == SelfCollisionPhase
    ensures k < rounds ==>
              Schedule(rounds)[3 + 3 * k .. 6 + 3 * k] == [BoxCollisionPhase, SmartCollisionPhase, SpringPhase]
    ensures forall e: Engine, co: Collaborators, ps: seq<PointMass> | SpringsFit(e.springs, |ps|) ::
              RunPhase(e, co, SelfCollisionPhase, ps) == ps
  {
    RoundPhasesShape(rounds, k);
  }

  lemma {:induction false} RoundPhasesLength(n: int)
    ensures |RoundPhases(n)| == 3 * (if n < 0 then 0 else n)
    decreases n
  {
    if n > 0 {
      RoundPhasesLength(n - 1);
    }
  }

  /** Phase `j` of the rounds is phase `j % 3` of one round. */
  lemma {:induction false} RoundPhasesAt(n: int, j: nat)
    requires j < |RoundPhases(n)|
    ensures RoundPhases(n)[j] == [BoxCollisionPhase, SmartCollisionPhase, SpringPhase][j % 3]
    decreases n
  {
    if j >= 3 {
      RoundPhasesAt(n - 1, j - 3);
    }
  }

  lemma {:induction false} RoundPhasesShape(n: int, k: nat)
    ensures |RoundPhases(n)| == 3 * (if n < 0 then 0 else n)
    ensures k < n ==> RoundPhases(n)[3 * k .. 3 * k + 3] == [BoxCollisionPhase, SmartCollisionPhase, SpringPhase]
  {
    RoundPhasesLength(n);
    if k < n {
      var a := RoundPhases(n);
      RoundPhasesAt(n, 3 * k);
      RoundPhasesAt(n, 3 * k + 1);
      RoundPhasesAt(n, 3 * k + 2);
      assert a[3 * k .. 3 * k + 3] == [a[3 * k], a[3 * k + 1], a[3 * k + 2]];
    }
  }

  /** The acceleration law the point-mass class is meant to follow: force
      over mass, and exactly zero for a pinned point. Used for examples. */
  function ForceOverMass(q: PointMass): Vec3 {
    if q.mass > 0.0 then Scale(q.force, 1.0 / q.mass) else Zero
  }

  function NoSmartCorrection(c: SmartCollider, i: nat, x: Vec3): Vec3 {
    x
  }

  function NoSpringCorrection(s: Spring, a: PointMass, b: PointMass): (Vec3, Vec3) {
    (a.position, b.position)
  }

  /** A single free unit mass at rest under gravity (0, -9.81, 0), damping 1
      and timestep 0.01 drops by 9.81 * 0.01^2 in one step. */
  lemma FreeFallExample()
    ensures
      var e := Engine(1.0, Vec3(0.0, -9.81, 0.0), 1.0, 0.01, 0.01 * 0.01, [NewPoint(Zero, 1.0)], [], [], [], 1);
      var co := Collaborators(ForceOverMass, NoSmartCorrection, NoSpringCorrection);
      Step(e, co).points[0].position == Vec3(0.0, -0.000981, 0.0)
  {
    var e := Engine(1.0, Vec3(0.0, -9.81, 0.0), 1.0, 0.01, 0.01 * 0.01, [NewPoint(Zero, 1.0)], [], [], [], 1);
    var co := Collaborators(ForceOverMass, NoSmartCorrection, NoSpringCorrection);
    var forced := ApplyGravity(ResetForces(e.points), e.gravity);
    assert forced[0].force == Vec3(0.0, -9.81, 0.0);
    assert co.acceleration(forced[0]) == Vec3(0.0, -9.81, 0.0);
    var moved := Integrate(forced, e.damping, e.timestepSqrd, co.acceleration);
    assert Sub(moved[0].position, Zero) == Vec3(0.0, -0.000981, 0.0);
    var relaxed := Relax(e, co, moved, 1);
    assert relaxed == Round(e, co, moved);
    assert relaxed == moved;
  }
}
