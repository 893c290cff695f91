/** `CCloth`: the component that derives the solver's arguments, ticks it in
    sub-steps, pins vertices the robot arm touches, nudges point 0 from the
    keyboard axes and copies positions out for rendering. Input axes, frame
    time and collision contacts are parameters. */
module CCloth {
  import opened Outcomes
  import opened Vectors
  import BoxCollision
  import Closest
  import opened ClothPhysics

  /** The serialized fields that feed the solver. */
  datatype Settings = Settings(
    mass: real,
    springK: real,
    damping: real,
    timestep: real,
    substeps: int,
    collisionConstraintSteps: int)

  /** What `Start` passes to the solver's constructor for mass, damping and
      timestep. */
  datatype EngineArgs = EngineArgs(totalMass: real, damping: real, timestep: real)

  /** `mass` is per vertex, `damping` is the fraction of velocity lost per
      step, and `timestep` is split evenly over the sub-steps. */
  function DeriveArgs(s: Settings, vertexCount: nat): (a: EngineArgs)
    requires s.substeps != 0
    ensures vertexCount > 0 ==> a.totalMass / (vertexCount as real) == s.mass
    ensures 1.0 - a.damping == s.damping
    ensures a.timestep * (s.substeps as real) == s.timestep
  {
    EngineArgs(s.mass * (vertexCount as real), 1.0 - s.damping, s.timestep / (s.substeps as real))
  }

  /** `Start`: build the solver from the welded mesh's world-space vertices
      and triangles. `Physics.gravity` is a parameter. */
  function Start(
    s: Settings, worldVerts: seq<Vec3>, tris: seq<int>, pinned: Option<seq<int>>, gravity: Vec3,
    boxes: seq<BoxCollision.Box>, smart: seq<SmartCollider>, magnitude: Vec3 -> real): (c: Construction)
    requires s.substeps != 0
    ensures c.Threw? <==> !ValidTriangles(tris, |worldVerts|)
    ensures c.Constructed? ==>
              && c.engine.rounds == s.collisionConstraintSteps
              && |c.engine.points| == |worldVerts|
  {
    var a := DeriveArgs(s, |worldVerts|);
    New(Some(worldVerts), Some(tris), a.totalMass, s.springK, gravity, a.damping, a.timestep,
        pinned, boxes, smart, s.collisionConstraintSteps, magnitude)
  }

  /** The solver `Start` builds holds the extracted points and the derived
      damping and timestep. */
  lemma StartUsesDerivedArgs(
    s: Settings, worldVerts: seq<Vec3>, tris: seq<int>, pinned: Option<seq<int>>, gravity: Vec3,
    boxes: seq<BoxCollision.Box>, smart: seq<SmartCollider>, magnitude: Vec3 -> real)
    requires s.substeps != 0
    requires Start(s, worldVerts, tris, pinned, gravity, boxes, smart, magnitude).Constructed?
    ensures var e := Start(s, worldVerts, tris, pinned, gravity, boxes, smart, magnitude).engine;
            var a := DeriveArgs(s, |worldVerts|);
            && e.points == Extract(Some(worldVerts), Some(tris), pinned, a.totalMass, s.springK, magnitude).points
            && e.damping == a.damping
            && e.timestep == a.timestep
  {
  }

  /** Every unpinned point ends up with the component's per-vertex `mass`,
      every pinned one with none; the solver steps with `1 - damping` and
      `timestep / substeps`. */
  lemma {:induction false} StartPointMasses(
    s: Settings, worldVerts: seq<Vec3>, tris: seq<int>, pinned: Option<seq<int>>, gravity: Vec3,
    boxes: seq<BoxCollision.Box>, smart: seq<SmartCollider>, magnitude: Vec3 -> real, i: nat)
    requires s.substeps != 0
    requires Start(s, worldVerts, tris, pinned, gravity, boxes, smart, magnitude).Constructed?
    requires i < |worldVerts|
    ensures var e := Start(s, worldVerts, tris, pinned, gravity, boxes, smart, magnitude).engine;
            && e.points[i].mass == (if IsPinned(pinned, i) then 0.0 else s.mass)
            && e.damping == 1.0 - s.damping
            && e.timestep * (s.substeps as real) == s.timestep
  {
    var a := DeriveArgs(s, |worldVerts|);
    StartUsesDerivedArgs(s, worldVerts, tris, pinned, gravity, boxes, smart, magnitude);
    var e := Start(s, worldVerts, tris, pinned, gravity, boxes, smart, magnitude).engine;
    ExtractedMass(worldVerts, tris, pinned, a.totalMass, s.springK, magnitude, i);
    assert e.timestep == a.timestep;
  }

  /** `Pin(index)`: the point's mass and pin scalar drop to zero; an index
      outside the array throws. */
  function Pin(ps: seq<PointMass>, index: int): (r: Result<seq<PointMass>>)
    ensures r.Ok? <==> 0 <= index < |ps|
    ensures r.Ok? ==>
              && |r.value| == |ps|
              && r.value[index].mass == 0.0
              && r.value[index].pinConstraintScalar == 0.0
              && r.value[index] == ps[index].(mass := 0.0, pinConstraintScalar := 0.0)
              && forall i :: 0 <= i < |ps| && i != index ==> r.value[i] == ps[i]
  {
    if 0 <= index < |ps| then
      Ok(ps[index := ps[index].(mass := 0.0, pinConstraintScalar := 0.0)])
    else
      Err(IndexOutOfRange)
  }

  /** `float.MaxValue`, the scan's starting "closest distance". */
  const FloatMax: real := 340282346638528859811704183484516925440.0

  function DistanceKeys(ps: seq<PointMass>, hit: Vec3): (keys: seq<real>)
    ensures |keys| == |ps|
    ensures forall i :: 0 <= i < |ps| ==> keys[i] == SqrDistance(ps[i].position, hit)
  {
    seq(|ps|, i requires 0 <= i < |ps| => SqrDistance(ps[i].position, hit))
  }

  /** The index `PinClosestVertex` picks: the first point nearest to `hit`,
      or 0 when the array is empty or every point is at least
      `float.MaxValue` away. */
  function ClosestIndex(ps: seq<PointMass>, hit: Vec3): (r: nat)
    ensures |ps| > 0 ==> r < |ps|
    ensures (exists j :: 0 <= j < |ps| && SqrDistance(ps[j].position, hit) < FloatMax * FloatMax) ==>
              && r < |ps|
              && (forall j :: 0 <= j < |ps| ==> SqrDistance(ps[r].position, hit) <= SqrDistance(ps[j].position, hit))
              && (forall j :: 0 <= j < r ==> SqrDistance(ps[r].position, hit) < SqrDistance(ps[j].position, hit))
    ensures (forall j :: 0 <= j < |ps| ==> SqrDistance(ps[j].position, hit) >= FloatMax * FloatMax) ==> r == 0
  {
    var keys := DistanceKeys(ps, hit);
    var r := Closest.FirstClosest(keys, Some(FloatMax * FloatMax));
    assert (exists j :: 0 <= j < |ps| && SqrDistance(ps[j].position, hit) < FloatMax * FloatMax)
           ==> Closest.AnyBelow(keys, Some(FloatMax * FloatMax));
    r
  }

  /** Only positions decide which point is closest. */
  lemma {:induction false} ClosestIndexByPositions(a: seq<PointMass>, b: seq<PointMass>, hit: Vec3)
    requires |a| == |b|
    requires forall i :: 0 <= i < |a| ==> a[i].position == b[i].position
    ensures ClosestIndex(a, hit) == ClosestIndex(b, hit)
  {
    assert DistanceKeys(a, hit) == DistanceKeys(b, hit);
  }

  /** `PinClosestVertex`: pin the closest point; on an empty array, pinning
      index 0 throws. */
  function PinClosestVertex(ps: seq<PointMass>, hit: Vec3): (r: Result<seq<PointMass>>)
    ensures r.Ok? <==> |ps| > 0
    ensures r.Ok? ==> r == Pin(ps, ClosestIndex(ps, hit))
  {
    Pin(ps, ClosestIndex(ps, hit))
  }

  /** `q` is `p`, possibly pinned. */
  predicate SameOrPinned(p: PointMass, q: PointMass) {
    q == p || q == Pinned(p)
  }

  /** `p` after `Pin`: massless and with pin scalar 0, otherwise as it was. */
  function Pinned(p: PointMass): PointMass {
    p.(mass := 0.0, pinConstraintScalar := 0.0)
  }

  /** In `r`, the point closest to each contact is that point of `ps`,
      pinned. */
  predicate PinnedAtContacts(ps: seq<PointMass>, r: seq<PointMass>, contacts: seq<Vec3>) {
    && |r| == |ps|
    && forall c :: c in contacts ==>
         ClosestIndex(ps, c) < |ps| && r[ClosestIndex(ps, c)] == Pinned(ps[ClosestIndex(ps, c)])
  }

  /** No contact has point `i` as its closest. */
  predicate ClosestToNone(ps: seq<PointMass>, contacts: seq<Vec3>, i: nat) {
    forall c :: c in contacts ==> ClosestIndex(ps, c) != i
  }

  /** After the first contact pins its point, a point closest to no contact
      is still unpinned and is still closest to none of the rest. */
  lemma PinFirstKeepsOthers(ps: seq<PointMass>, pinned: seq<PointMass>, contacts: seq<Vec3>)
    requires |contacts| > 0
    requires PinClosestVertex(ps, contacts[0]) == Ok(pinned)
    ensures forall i: nat :: i < |ps| && ClosestToNone(ps, contacts, i) ==>
              pinned[i] == ps[i] && ClosestToNone(pinned, contacts[1..], i)
  {
    ClosestIndexStableUnderPins(ps, pinned, contacts[1..]);
    assert forall c :: c in contacts[1..] ==> c in contacts;
  }

  /** Pinning the first contact's point and then pinning every later
      contact's point leaves every contact's point pinned: a point pinned
      twice is pinned once, and the first pin moves no later choice. */
  lemma PinFirstThenRest(ps: seq<PointMass>, pinned: seq<PointMass>, contacts: seq<Vec3>, rest: seq<PointMass>)
    requires |contacts| > 0
    requires PinClosestVertex(ps, contacts[0]) == Ok(pinned)
    requires |rest| == |pinned|
    requires forall i :: 0 <= i < |pinned| ==> SameOrPinned(pinned[i], rest[i])
    requires PinnedAtContacts(pinned, rest, contacts[1..])
    ensures PinnedAtContacts(ps, rest, contacts)
  {
    ClosestIndexStableUnderPins(ps, pinned, contacts[1..]);
    forall c | c in contacts
      ensures ClosestIndex(ps, c) < |ps| && rest[ClosestIndex(ps, c)] == Pinned(ps[ClosestIndex(ps, c)])
    {
      if c != contacts[0] {
        assert c in contacts[1..];
      }
    }
  }

  /** The contacts in order, each pinning the point closest to it. */
  function PinEach(ps: seq<PointMass>, contacts: seq<Vec3>): (r: Result<seq<PointMass>>)
    ensures r.Ok? <==> |contacts| == 0 || |ps| > 0
    ensures r.Ok? ==> |r.value| == |ps| && forall i :: 0 <= i < |ps| ==> SameOrPinned(ps[i], r.value[i])
    ensures r.Ok? ==> forall c :: c in contacts ==> r.value[ClosestIndex(ps, c)].mass == 0.0
    ensures r.Ok? ==> forall i: nat :: i < |ps| && ClosestToNone(ps, contacts, i) ==> r.value[i] == ps[i]
    ensures r.Ok? ==> PinnedAtContacts(ps, r.value, contacts)
    decreases |contacts|
  {
    if |contacts| == 0 then
      Ok(ps)
    else
      match PinClosestVertex(ps, contacts[0])
      case Err(f) => Err(f)
      case Ok(pinned) =>
        ClosestIndexStableUnderPins(ps, pinned, contacts[1..]);
        PinFirstKeepsOthers(ps, pinned, contacts);
        var r := PinEach(pinned, contacts[1..]);
        if r.Ok? then
          PinFirstThenRest(ps, pinned, contacts, r.value);
          r
        else
          r
  }

  lemma ClosestIndexStableUnderPins(a: seq<PointMass>, b: seq<PointMass>, contacts: seq<Vec3>)
    requires |a| == |b|
    requires forall i :: 0 <= i < |a| ==> SameOrPinned(a[i], b[i])
    ensures forall c :: c in contacts ==> ClosestIndex(a, c) == ClosestIndex(b, c)
  {
    forall c | c in contacts
      ensures ClosestIndex(a, c) == ClosestIndex(b, c)
    {
      ClosestIndexByPositions(a, b, c);
    }
  }

  /** The robot arm's name, as the collision handler compares it. */
  const RobotArmName: string := "DobotMagicianRobotArm"

  /** `OnCollisionEnter`: only the robot arm pins anything, one vertex per
      contact point. */
  function OnCollisionEnter(ps: seq<PointMass>, otherName: string, contacts: seq<Vec3>): (r: Result<seq<PointMass>>)
    ensures otherName != RobotArmName ==> r == Ok(ps)
    ensures otherName == RobotArmName ==> r == PinEach(ps, contacts)
  {
    if otherName == RobotArmName then PinEach(ps, contacts) else Ok(ps)
  }

  /** `FixedUpdate`: `substeps` physics steps in a row (none when the count
      is zero or negative); pins and masses survive them. */
  function FixedUpdate(e: Engine, co: Collaborators, substeps: int): (r: Engine)
    requires WellFormed(e)
    ensures WellFormed(r)
    ensures r == e.(points := r.points)
    ensures substeps <= 0 ==> r == e
    ensures |r.points| == |e.points|
    ensures forall i :: 0 <= i < |e.points| ==>
              && r.points[i].mass == e.points[i].mass
              && r.points[i].pinConstraintScalar == e.points[i].pinConstraintScalar
    decreases substeps
  {
    if substeps <= 0 then e else Step(FixedUpdate(e, co, substeps - 1), co)
  }

  /** `CustomInjectedCode`: the horizontal and vertical input axes nudge
      point 0 along x and z; nothing else moves. */
  function CustomInjectedCode(ps: seq<PointMass>, horizontal: real, vertical: real, deltaTime: real, speed: real): (r: Result<seq<PointMass>>)
    ensures r.Ok? <==> |ps| > 0
    ensures r.Ok? ==>
              && |r.value| == |ps|
              && r.value[0].position.x - ps[0].position.x == horizontal * deltaTime * speed
              && r.value[0].position.z - ps[0].position.z == vertical * deltaTime * speed
              && r.value[0].position.y == ps[0].position.y
              && r.value[0] == ps[0].(position := r.value[0].position)
              && forall i :: 0 < i < |ps| ==> r.value[i] == ps[i]
  {
    if |ps| == 0 then
      Err(IndexOutOfRange)
    else
      var p := ps[0].position;
      var moved := Vec3(p.x + horizontal * deltaTime * speed, p.y, p.z + vertical * deltaTime * speed);
      Ok(ps[0 := ps[0].(position := moved)])
  }

  /** The copy `Update` hands to the renderer: every position, in index
      order. */
  method RenderCopy(ps: seq<PointMass>) returns (verts: seq<Vec3>)
    ensures |verts| == |ps|
    ensures forall i :: 0 <= i < |ps| ==> verts[i] == ps[i].position
  {
    verts := [];
    var i := 0;
    while i < |ps|
      invariant 0 <= i <= |ps|
      invariant |verts| == i
      invariant forall j :: 0 <= j < i ==> verts[j] == ps[j].position
    {
      verts := verts + [ps[i].position];
      i := i + 1;
    }
  }
}
