# Cloth simulation core, modelled in Dafny

This project models the cloth simulation of a Unity scene in which a robot arm
picks up and folds a cloth. It covers seven components:

- `ClothPhysics`: a mass-spring graph built from a mesh and advanced by
  position Verlet. Each step runs box collision, smart collision and spring
  relaxation rounds.
- `BoxCollisionConstraint`: an axis-aligned box that pushes points back onto
  its surface.
- `CCloth`: the component that configures the solver and sub-steps it. It also
  pins the vertex nearest each robot-arm contact, nudges point 0 from the
  keyboard axes, and copies positions out for rendering.
- `TouchTest` and `PlaneGravity`: two simpler vertex-gravity planes that
  interact with a box collider. `TouchTest` also lets a gripper carry a
  vertex.
- `FoldMesh`: an eased animation that folds the right half of a mesh.
- `ClothFolding`: a two-press quarter-turn fold.

The model uses exact reals throughout. Unity's `Vector3` becomes `Vectors.Vec3`.
A transform's `TransformPoint`/`InverseTransformPoint` pair becomes
`Vectors.Frame`, and the `Vectors.Inverse` predicate says when the two undo
each other.

Anything the core calls but whose source is not part of this model is a
function-valued parameter:

- `PointMass.ComputeAcceleration`;
- the spring correction of `SpringConstraintSqrtApprox`;
- the smart static collision constraint;
- `Mathf.Pow`, `Mathf.Cos`, `Mathf.Sin` and `Vector3.magnitude`.

Three kinds of input are also parameters:

- frame time and the input axes;
- collision contact points;
- collider bounds and gripper positions.

An exception becomes `Outcomes.Err(IndexOutOfRange)`.

Unity's `Vector3 ==` and `!=` are approximate, not exact: two vectors are equal
when the squared length of their difference is below 1e-10. The box constraint
compares the local and the clamped position with this operator. So a point
outside the box by less than 1e-5 is neither moved nor reported. The model
keeps this behaviour: `BoxCollision.OutsideButNotApplied` exhibits such a
point. `BoxCollision.ApplyStaysNearBox` proves "inside, up to the tolerance",
not "inside".

## Model

| member | source | states |
|---|---|---|
| BoxCollision.ExtentsOf | Assets/Scripts/BoxCollisionConstraint.cs:15-18 | the extents are half the size: twice the extents is the size |
| BoxCollision.ExtentsExample | Assets/Scripts/BoxCollisionConstraint.cs:17 | a box of size (2, 2, 2) has extents (1, 1, 1) |
| BoxCollision.UpdatePosition | Assets/Scripts/BoxCollisionConstraint.cs:20-24 | the centre minus the offset is the transform position; the extents do not change |
| BoxCollision.Apply | Assets/Scripts/BoxCollisionConstraint.cs:26-45 | a point inside is untouched and not reported; an unreported point is unchanged; a reported point was outside and ends inside (for non-negative extents); an axis already in range keeps its coordinate; a reported point's axis that was below the box lands on the lower face, and one above it on the upper face (for non-negative extents); the per-axis clamp is Unity's `Mathf.Clamp` (`Mathf.Clamp`) and the comparison at line 38 is Unity's approximate `Vector3 !=` (`Vectors.ApproxEqual`) |
| BoxCollision.LocalWithinSlack | Assets/Scripts/BoxCollisionConstraint.cs:30-37 | an offset that Unity's vector equality cannot tell from a point of the box lies within 1e-5 of the box on every axis |
| BoxCollision.ApplyStaysNearBox | Assets/Scripts/BoxCollisionConstraint.cs:26-45 | with non-negative extents the resulting position is always inside the box enlarged by 1e-5 on each axis |
| BoxCollision.ApplyIdempotent | Assets/Scripts/BoxCollisionConstraint.cs:26-45 | applying the constraint to its own result reports nothing and changes nothing |
| BoxCollision.OutsideButNotApplied | Assets/Scripts/BoxCollisionConstraint.cs:38-44 | the point (1.000001, 0, 0) lies outside the unit box yet is neither corrected nor reported |
| BoxCollision.FarOutsideIsApplied | Assets/Scripts/BoxCollisionConstraint.cs:38-41 | a point outside the box by more than 1e-5 on some axis is always corrected |
| BoxCollision.ClampExample | Assets/Scripts/BoxCollisionConstraint.cs:28-41 | the origin against a unit-extent box centred at (0, 5, 0) is moved to (0, 4, 0) and reported |
| Closest.FirstClosest | Assets/Scripts/CCloth.cs:147-158 | the scan returns the first index holding the least key when some key beats the starting bound, and 0 otherwise |
| Closest.FirstClosestUnique | Assets/TouchTest.cs:116-130 | the first-closest characterisation determines the index uniquely |
| ClothPhysics.MassPerPoint | Assets/Scripts/ClothPhysics.cs:15 | zero while there is no point array; otherwise the share times the point count is the total mass |
| ClothPhysics.TriangleSprings | Assets/Scripts/ClothPhysics.cs:84-98 | one spring per triangle-buffer entry; every spring joins two existing points, has stiffness `springK` and rests at the distance between its endpoints |
| ClothPhysics.NewSpringEndpoints | Assets/Scripts/ClothPhysics.cs:86-91 | in a constructed engine, spring 3t, 3t+1 and 3t+2 join the corners (t0, t1), (t1, t2), (t2, t0) of triangle t |
| ClothPhysics.TriangleEdges | Assets/Scripts/ClothPhysics.cs:86-91 | triangle t contributes springs 3t, 3t+1, 3t+2, joining its corners (t0, t1), (t1, t2), (t2, t0) |
| ClothPhysics.Extract | Assets/Scripts/ClothPhysics.cs:66-101 | null data exactly when an input array is null; a throw exactly when the buffer is not whole triangles of vertex indices; otherwise one point per vertex, at rest with zero force, pinned ones massless, the others an equal share of the mass |
| ClothPhysics.ExtractedMass | Assets/Scripts/ClothPhysics.cs:76-82 | point `i` of a successful extraction weighs nothing when pinned and the mass divided by the vertex count otherwise |
| ClothPhysics.New | Assets/Scripts/ClothPhysics.cs:37-56 | the three outcomes of construction; a constructed engine holds exactly the points and springs the mesh extraction produced, with the given mass, timestep, gravity, damping, colliders and round count; the squared timestep is the timestep squared; every spring fits the point array |
| ClothPhysics.SpringsStartAtRest | Assets/Scripts/ClothPhysics.cs:86-96 | every spring of a freshly constructed engine joins two of its points and is exactly at its rest length between them |
| ClothPhysics.ResetForces | Assets/Scripts/ClothPhysics.cs:103-107 | every point's force is cleared and nothing else about any point changes |
| ClothPhysics.ApplyGravity | Assets/Scripts/ClothPhysics.cs:109-113 | every point's force grows by gravity times its mass, so a massless (pinned) point gains none; nothing else changes |
| ClothPhysics.ResetThenGravity | Assets/Scripts/ClothPhysics.cs:103-113 | after the reset and the gravity pass every point carries exactly gravity times its mass, nothing on a massless point |
| ClothPhysics.Integrate | Assets/Scripts/ClothPhysics.cs:121-133 | the last position becomes the old position; the displacement is the damped previous displacement plus acceleration times the squared timestep; nothing else changes |
| ClothPhysics.IntegrateAtRest | Assets/Scripts/ClothPhysics.cs:126-131 | a point at rest with no acceleration does not move |
| ClothPhysics.ClampAll | Assets/Scripts/ClothPhysics.cs:140-144 | one box moves only positions, each to where the box constraint puts it |
| ClothPhysics.BoxPass | Assets/Scripts/ClothPhysics.cs:140-144 | running the box colliders in list order moves points only: masses, forces, last positions and pin scalars are kept |
| ClothPhysics.BoxPassEndsNearLastBox | Assets/Scripts/ClothPhysics.cs:140-144 | after the box pass every point lies in the last box of the list, up to the equality tolerance |
| ClothPhysics.ClampAllIdempotent | Assets/Scripts/ClothPhysics.cs:142-143 | a second pass of the same box changes nothing |
| ClothPhysics.SmartPass | Assets/Scripts/ClothPhysics.cs:146-150 | the smart colliders change only positions |
| ClothPhysics.ApplySpring | Assets/Scripts/ClothPhysics.cs:117-118 | one spring changes only the positions of its two endpoints |
| ClothPhysics.SpringPass | Assets/Scripts/ClothPhysics.cs:115-119 | the spring pass changes only positions, and leaves every point no spring touches exactly as it was |
| ClothPhysics.Relax | Assets/Scripts/ClothPhysics.cs:159-170 | any number of rounds changes only positions; no rounds when the count is not positive |
| ClothPhysics.Step | Assets/Scripts/ClothPhysics.cs:153-174 | only the point array changes; springs still fit; every point keeps its mass and pin scalar, its last position is its old position, and its force is gravity times its mass |
| ClothPhysics.StepWithoutRounds | Assets/Scripts/ClothPhysics.cs:155-157 | with no relaxation rounds a step is reset, gravity and integration only |
| ClothPhysics.PinnedAtRestStaysPut | Assets/Scripts/ClothPhysics.cs:153-174 | a massless point at rest stays put through a step without rounds when acceleration vanishes at mass zero |
| ClothPhysics.RunAppend | Assets/Scripts/ClothPhysics.cs:153-174 | running two phase lists one after the other is running their concatenation |
| ClothPhysics.RelaxRunsRounds | Assets/Scripts/ClothPhysics.cs:159-170 | the relaxation loop is its rounds' phases (boxes, smart colliders, springs) run in order |
| ClothPhysics.StepFollowsSchedule | Assets/Scripts/ClothPhysics.cs:153-174 | a step is exactly the schedule reset, gravity, integration, rounds times (boxes, smart, springs), self-collision, run in order |
| ClothPhysics.ScheduleShape | Assets/Scripts/ClothPhysics.cs:155-172 | the schedule has 4 + 3·rounds phases, starts with reset, gravity, integration, repeats the round triple, ends with the self-collision placeholder `SelfCollisions` (ClothPhysics.cs:135-138), which changes nothing |
| ClothPhysics.RoundPhasesShape | Assets/Scripts/ClothPhysics.cs:159-170 | the rounds contribute 3 phases each, every triple being boxes, smart colliders, springs |
| ClothPhysics.FreeFallExample | Assets/Scripts/ClothPhysics.cs:121-133 | a free unit mass at rest drops by 9.81 · 0.01² in one step of 0.01 |
| CCloth.DeriveArgs | Assets/Scripts/CCloth.cs:64-70 | the solver gets the per-vertex mass times the vertex count, one minus the damping, and the timestep split over the sub-steps |
| CCloth.Start | Assets/Scripts/CCloth.cs:60-80 | construction throws exactly when the triangle buffer is bad; the solver runs `collisionConstraintSteps` rounds over one point per vertex |
| CCloth.StartUsesDerivedArgs | Assets/Scripts/CCloth.cs:64-75 | a constructed engine holds the points extracted with the derived total mass and the configured spring constant, and uses the derived damping and timestep |
| CCloth.StartPointMasses | Assets/Scripts/CCloth.cs:64-75 | every unpinned point gets the per-vertex mass back, every pinned point none; damping and timestep as derived |
| CCloth.Pin | Assets/Scripts/CCloth.cs:82-86 | the point's mass and pin scalar become zero and nothing else changes; an index outside the array throws |
| CCloth.ClosestIndex | Assets/Scripts/CCloth.cs:144-158 | the first point nearest to the hit point when one lies closer than `float.MaxValue`, otherwise 0 |
| CCloth.ClosestIndexByPositions | Assets/Scripts/CCloth.cs:150-152 | only the points' positions decide the closest index |
| CCloth.PinClosestVertex | Assets/Scripts/CCloth.cs:144-161 | succeeds exactly when there is a point, and then pins the closest one |
| CCloth.PinEach | Assets/Scripts/CCloth.cs:135-161 | every contact's closest point ends as that point with mass and pin scalar 0 (even when it was already massless), every point closest to no contact is unchanged, and every other point is either unchanged or pinned; only an empty array with contacts throws |
| CCloth.ClosestIndexStableUnderPins | Assets/Scripts/CCloth.cs:135-139 | pinning earlier contacts does not change which point later contacts pick |
| CCloth.OnCollisionEnter | Assets/Scripts/CCloth.cs:131-141 | only a collider named `DobotMagicianRobotArm` pins anything, and then it pins each contact's closest point in contact order (as `PinEach`, so points closest to no contact are unchanged) |
| CCloth.FixedUpdate | Assets/Scripts/CCloth.cs:88-96 | `substeps` steps in a row, none when the count is not positive; only the point array changes, springs still fit and every point keeps its mass and pin scalar, so pins survive |
| CCloth.CustomInjectedCode | Assets/Scripts/CCloth.cs:100-109 | point 0 moves by the horizontal axis along x and the vertical axis along z, scaled by frame time and speed; nothing else changes; an empty array throws |
| CCloth.RenderCopy | Assets/Scripts/CCloth.cs:116-120 | the render buffer holds every point's position, in index order |
| Mathf.Clamp01 | Assets/FoldMesh.cs:86 | the result lies in [0, 1] and a value already there is kept |
| Mathf.EaseBounds | Assets/FoldMesh.cs:86 | the cubic easing maps [0, 1] into [0, 1] |
| Mathf.SmoothStepRange | Assets/FoldMesh.cs:86 | the eased progress always lies in [0, 1] |
| Mathf.SmoothStepHalf | Assets/FoldMesh.cs:86 | the eased progress at one half is one half |
| Mathf.Lerp | Assets/FoldMesh.cs:91 | a parameter at or below 0 gives the start, at or above 1 the end |
| VertexGravity.Fall | Assets/TouchTest.cs:61-65 | the displacement is the new velocity times the frame time; the horizontal velocity is damped; the vertical velocity gains gravity times frame time and is damped |
| VertexGravity.FallFromRest | Assets/PlaneGravity.cs:55-59 | undamped, a vertex at rest falls g·dt² in one frame and keeps x and z |
| VertexGravity.Snap | Assets/TouchTest.cs:68-75 | a vertex at or above the floor is untouched; one below it is stopped |
| VertexGravity.SnapRestsOnFloor | Assets/PlaneGravity.cs:44-50 | through an invertible transform a snapped vertex ends at or above the floor, straight above where it was, exactly on the floor when moved |
| VertexGravity.FallOnto | Assets/TouchTest.cs:61-75 | unless the fall took the vertex below the floor the result is the plain fall; its velocity is the fall's or zero |
| VertexGravity.FallOntoRests | Assets/TouchTest.cs:61-75 | through an invertible transform a vertex that fell and was snapped never ends below the floor |
| TouchTest.Start | Assets/TouchTest.cs:18-24 | one zero velocity per vertex, nothing pinned |
| TouchTest.GravityAt | Assets/TouchTest.cs:52-78 | the pinned vertex and a vertex over the box footprint stay put; any other falls and is stopped at the box bottom |
| TouchTest.ApplyGravityToVertices | Assets/TouchTest.cs:49-79 | every vertex gets its own gravity iteration; lengths, the pin and the followed gripper are kept |
| TouchTest.GravityStopsAtBoxBottom | Assets/TouchTest.cs:59-75 | through an invertible transform every vertex is either untouched or ends at or above the box bottom |
| TouchTest.Update | Assets/TouchTest.cs:26-47 | gravity first; then, when pinned and following, the pinned vertex is placed at the gripper, converted into local space; no other vertex differs from the gravity result |
| TouchTest.PinnedVertexFollowsGripper | Assets/TouchTest.cs:32-36 | through an invertible transform the pinned vertex sits exactly at the gripper's world position after an update |
| TouchTest.OnTriggerEnter | Assets/TouchTest.cs:102-138 | throws exactly when there are no vertices; otherwise pins the first vertex nearest the contact point in world space, follows the gripper, and changes nothing else |
| TouchTest.OnTriggerEnterPicksFirstClosest | Assets/TouchTest.cs:113-129 | on a non-empty mesh the pinned index is the one the independent first-least characterisation `Closest.IsFirstClosest` singles out among the vertices' squared world distances to the contact point |
| TouchTest.OnTriggerExit | Assets/TouchTest.cs:141-149 | nothing is pinned or followed; vertices and velocities are kept |
| PlaneGravity.Start | Assets/PlaneGravity.cs:12-18 | one zero velocity per vertex |
| PlaneGravity.GravityAt | Assets/PlaneGravity.cs:29-61 | a vertex off the footprint takes the plain fall; one on it falls and is stopped at the box top |
| PlaneGravity.ApplyGravityToVertices | Assets/PlaneGravity.cs:27-62 | every vertex gets its own gravity iteration; lengths are kept |
| PlaneGravity.FootprintRestsOnTop | Assets/PlaneGravity.cs:34-60 | through an invertible transform a vertex over the footprint ends on or above the box top; one off it is exactly where the fall puts it |
| FoldMesh.FoldLine | Assets/FoldMesh.cs:28 | the fold line is equidistant from the two x bounds |
| FoldMesh.FoldTarget | Assets/FoldMesh.cs:37-53 | z is kept; left of the line a vertex stays; on or right of it the vertex is mirrored across the line (ending left of it) and lifted by the y adjuster `YAdjuster`, which is `Pow(distance, 1.2) * 1.4` as in `CalculateYAdjuster` (FoldMesh.cs:58-65) |
| FoldMesh.Prepare | Assets/FoldMesh.cs:18-55 | one folded target per original vertex |
| FoldMesh.FoldedIntoLeftHalf | Assets/FoldMesh.cs:37-53 | when the bounds enclose the mesh every folded vertex lies between the left edge and the fold line, and no mirrored vertex is lowered when `Pow` is non-negative |
| FoldMesh.Update | Assets/FoldMesh.cs:68-108 | a frame is produced exactly when folding or starting from progress 0; otherwise nothing changes; the progress stays in [0, 0.5], never decreases for a non-negative advance, and on a shown frame it is the old progress plus `deltaTime * foldSpeed`, clamped to [0, 0.5]; folding continues exactly while it is below 0.5 |
| FoldMesh.DoneIsFinal | Assets/FoldMesh.cs:70-73 | once the fold has stopped at 0.5 no sequence of frames restarts or changes it |
| FoldMesh.OneLongFrameFolds | Assets/FoldMesh.cs:78-106 | from rest a single frame advancing by at least one half completes the fold |
| FoldMesh.Blend | Assets/FoldMesh.cs:83-92 | the shown vertices are each original vertex moved towards its folded counterpart by the same smoothstep-eased fraction of the progress, one per vertex |
| FoldMesh.HalfwayStandsOnLine | Assets/FoldMesh.cs:83-92 | at progress 0.5 every mirrored vertex lies exactly on the fold line |
| ClothFolding.RotateZ | Assets/ClothFolding.cs:99-111 | the standard rotation of x and y by the angle's cosine and sine; z is kept |
| ClothFolding.RotateZKeepsRadius | Assets/ClothFolding.cs:99-111 | with cos² + sin² = 1 the distance from the z axis is kept |
| ClothFolding.FirstFoldVertex | Assets/ClothFolding.cs:49-59 | right of x = 0 a vertex turns by +90°, left by −90°, on the axis it stays |
| ClothFolding.SecondFoldVertex | Assets/ClothFolding.cs:77-87 | above y = 0 a vertex turns by +90°, below by −90°, on the axis it stays |
| ClothFolding.FirstFold | Assets/ClothFolding.cs:42-68 | a missing mesh stays missing; otherwise every vertex takes its first-fold turn |
| ClothFolding.SecondFold | Assets/ClothFolding.cs:70-96 | a missing mesh stays missing; otherwise every vertex takes its second-fold turn |
| ClothFolding.Update | Assets/ClothFolding.cs:24-40 | no press changes nothing; the first press does the first fold, the second the second fold, later presses nothing; the second fold never precedes the first; the vertex count is kept |
| ClothFolding.RunCountsPresses | Assets/ClothFolding.cs:27-39 | over any run of frames, counting the frames whose key went down, the first fold is done exactly after one press and the second exactly after two |
| ClothFolding.TwoFoldsOfFlatVertex | Assets/ClothFolding.cs:49-87 | with exact quarter turns a flat vertex (x, 0, z) stands at (0, abs(x), z) after the first fold and lies at (−abs(x), 0, z) after the second |
| ClothFolding.TwoPressesFoldFlatMesh | Assets/ClothFolding.cs:24-96 | two presses on a flat mesh put every vertex at (−abs(x), 0, z): the right half lands mirrored onto the left |

## Left out

- Floating-point rounding: every quantity is an exact real. Float overflow,
  NaN, and the division by zero when `substeps` is 0 are not modelled, so
  `CCloth.DeriveArgs` and `CCloth.Start` require a non-zero sub-step count.
- `PointMass`, `SpringConstraintSqrtApprox`, `SmartStaticCollisionConstraint`,
  the `CollisionConstraint` base class, `ClothRender` and `WeldMesh` are not
  part of this model. Their behaviour is either a parameter or an assumption:
  - acceleration, spring correction and the smart correction are parameters;
  - a new point is assumed to start with its last position equal to its
    position, zero force and pin scalar 1;
  - the base class's `ApplyConstraint(points)` is assumed to apply the
    per-position constraint to every point in index order;
  - the spring and smart corrections are assumed to change only positions;
  - `PointMass.ResetForces` is assumed to set the force to zero and
    `PointMass.AddForce(f)` to add `f` to the force, each changing nothing
    else (`ClothPhysics.ResetForces` and `ClothPhysics.ApplyGravity` rely on
    this);
  - the renderer is assumed to have one vertex per point.
- ClothPhysics.Engine: the box colliders are held as a snapshot of values
  (`boxes`). In the source the engine shares the live collider objects, whose
  centres `UpdatePosition` moves every frame. The model never applies
  `BoxCollision.UpdatePosition` to `boxes` itself; a caller that wants moving
  boxes must replace them between steps.
- ClothPhysics.BoxPass: every entry of the collision constraint list is
  assumed to be a `BoxCollisionConstraint`. Other collision constraint kinds
  are not modelled.
- ClothPhysics.SmartPass: the smart collider is assumed to correct each point
  on its own, from the point's index and current position, visiting points in
  index order. A collider whose correction of one point depends on other
  points is not modelled.
- ClothPhysics.TriangleSprings: springs live in a `HashSet` in the source. The
  model keeps every edge once per triangle, in buffer order, and applies them
  in that order. Set deduplication and the set's iteration order are not
  modelled.
- CCloth.FixedUpdate: the loop is modelled as a recursive function of the
  sub-step count. No lemma composes two runs of sub-steps into one, because
  engine equalities across physics steps are too costly for the verifier.
- The stopwatch timing, the `TimedPhysicsStep` profiler variant, `Debug.Log`
  output, gizmo drawing, and mesh uploads such as `RecalculateNormals` have
  no effect on the state and are omitted.
- Unity's per-frame input, time and physics callbacks are parameters of each
  handler: `Input.GetAxisRaw`, `Input.GetKeyDown`, `Time.deltaTime`, collision
  contacts, `Collider.ClosestPoint`, collider bounds, the gripper's position,
  and the transform conversions.
- ClothFolding.TwoFoldsOfFlatVertex: it assumes exact quarter turns
  (cos 90° = 0, sin 90° = 1). In single precision `Mathf.Cos` of 90° in
  radians is about −4.4e-8, so the real mesh ends within that error of the
  stated positions, not exactly on them.
- FoldMesh.FoldedIntoLeftHalf: `Mathf.Pow` is a parameter. The "not lowered"
  half of the property assumes it is non-negative on non-negative bases.
- BoxCollision.Apply: the source's comments promise that the result is inside
  the box and that `true` means the point was outside. The second holds. The
  first holds only up to Unity's 1e-5 vector equality tolerance, because the
  comparison at line 38 is approximate; `OutsideButNotApplied` gives the
  counterexample.
- The robot arm controllers, `FoldAnimation`, `Dummy`, the `GameObject.Find`
  lookup of the arm, and the `pinnedTransform` object itself are outside the
  modelled core. The model keeps only whether a gripper is followed, and
  `Update` takes the gripper's current position.
