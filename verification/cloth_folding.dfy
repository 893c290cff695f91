/** `ClothFolding`: each press of the fold key performs the next of two
    folds, each a quarter turn of the mesh's vertices about the z axis whose
    direction depends on which side of an axis the vertex lies. */
module ClothFolding {
  import opened Outcomes
  import opened Vectors

  /** `Mathf.Cos`, `Mathf.Sin` and `Mathf.Deg2Rad`, supplied by the caller. */
  datatype Trig = Trig(cos: real -> real, sin: real -> real, deg2rad: real)

  /** The angle each fold turns a vertex by, in degrees. */
  const QuarterTurn: real := 90.0

  /** `RotateVertexAroundZAxis`: the standard rotation of (x, y) by the
      angle; z is kept. */
  function RotateZ(t: Trig, v: Vec3, angle: real): (r: Vec3)
    ensures r.z == v.z
    ensures var c := t.cos(angle * t.deg2rad); var s := t.sin(angle * t.deg2rad);
            r.x == v.x * c - v.y * s && r.y == v.x * s + v.y * c
  {
    var rad := angle * t.deg2rad;
    var c := t.cos(rad);
    var s := t.sin(rad);
    Vec3(v.x * c - v.y * s, v.x * s + v.y * c, v.z)
  }

  /** When cosine and sine of the angle lie on the unit circle, the rotation
      keeps the vertex's distance from the z axis. */
  lemma {:induction false} RotateZKeepsRadius(t: Trig, v: Vec3, angle: real)
    requires var rad := angle * t.deg2rad; t.cos(rad) * t.cos(rad) + t.sin(rad) * t.sin(rad) == 1.0
    ensures var r := RotateZ(t, v, angle); r.x * r.x + r.y * r.y == v.x * v.x + v.y * v.y
  {
    var c := t.cos(angle * t.deg2rad);
    var s := t.sin(angle * t.deg2rad);
    var r := RotateZ(t, v, angle);
    calc {
      r.x * r.x + r.y * r.y;
      (v.x * c - v.y * s) * (v.x * c - v.y * s) + (v.x * s + v.y * c) * (v.x * s + v.y * c);
      (v.x * v.x + v.y * v.y) * (c * c + s * s);
      v.x * v.x + v.y * v.y;
    }
  }

  /** One vertex of `FirstFold`: right of x = 0 it turns by +90 degrees, left
      of it by -90, on it it stays. */
  function FirstFoldVertex(t: Trig, v: Vec3): (r: Vec3)
    ensures v.x == 0.0 ==> r == v
    ensures v.x > 0.0 ==> r == RotateZ(t, v, QuarterTurn)
    ensures v.x < 0.0 ==> r == RotateZ(t, v, -QuarterTurn)
  {
    if v.x > 0.0 then RotateZ(t, v, QuarterTurn)
    else if v.x < 0.0 then RotateZ(t, v, -QuarterTurn)
    else v
  }

  /** One vertex of `SecondFold`: above y = 0 it turns by +90 degrees, below
      by -90, on it it stays. */
  function SecondFoldVertex(t: Trig, v: Vec3): (r: Vec3)
    ensures v.y == 0.0 ==> r == v
    ensures v.y > 0.0 ==> r == RotateZ(t, v, QuarterTurn)
    ensures v.y < 0.0 ==> r == RotateZ(t, v, -QuarterTurn)
  {
    if v.y > 0.0 then RotateZ(t, v, QuarterTurn)
    else if v.y < 0.0 then RotateZ(t, v, -QuarterTurn)
    else v
  }

  /** `FirstFold` on the mesh's vertex array; a missing mesh is left alone. */
  function FirstFold(t: Trig, mesh: Option<seq<Vec3>>): (r: Option<seq<Vec3>>)
    ensures r.None? <==> mesh.None?
    ensures r.Some? ==>
              && |r.value| == |mesh.value|
              && (forall i :: 0 <= i < |r.value| ==> r.value[i] == FirstFoldVertex(t, mesh.value[i]))
  {
    match mesh
    case None => None
    case Some(vs) => Some(seq(|vs|, i requires 0 <= i < |vs| => FirstFoldVertex(t, vs[i])))
  }

  /** `SecondFold` on the mesh's vertex array; a missing mesh is left alone. */
  function SecondFold(t: Trig, mesh: Option<seq<Vec3>>): (r: Option<seq<Vec3>>)
    ensures r.None? <==> mesh.None?
    ensures r.Some? ==>
              && |r.value| == |mesh.value|
              && (forall i :: 0 <= i < |r.value| ==> r.value[i] == SecondFoldVertex(t, mesh.value[i]))
  {
    match mesh
    case None => None
    case Some(vs) => Some(seq(|vs|, i requires 0 <= i < |vs| => SecondFoldVertex(t, vs[i])))
  }

  /** The component: the mesh (absent when the object has none) and which
      folds have been done. */
  datatype Folding = Folding(mesh: Option<seq<Vec3>>, firstFoldDone: bool, secondFoldDone: bool)

  /** The second fold is only ever done after the first. */
  predicate Ordered(s: Folding) {
    s.secondFoldDone ==> s.firstFoldDone
  }

  /** `Update`, given whether the fold key went down this frame. The flag is
      set even when there is no mesh to fold. */
  function Update(t: Trig, s: Folding, keyDown: bool): (r: Folding)
    ensures Ordered(s) ==> Ordered(r)
    ensures !keyDown ==> r == s
    ensures keyDown && !s.firstFoldDone ==> r == Folding(FirstFold(t, s.mesh), true, s.secondFoldDone)
    ensures keyDown && s.firstFoldDone && !s.secondFoldDone ==> r == Folding(SecondFold(t, s.mesh), true, true)
    ensures s.firstFoldDone && s.secondFoldDone ==> r == s
    ensures r.mesh.None? <==> s.mesh.None?
    ensures r.mesh.Some? ==> |r.mesh.value| == |s.mesh.value|
  {
    if !keyDown then s
    else if !s.firstFoldDone then s.(mesh := FirstFold(t, s.mesh), firstFoldDone := true)
    else if !s.secondFoldDone then s.(mesh := SecondFold(t, s.mesh), secondFoldDone := true)
    else s
  }

  /** The state after a run of frames, one key reading per frame. */
  function Run(t: Trig, s: Folding, keys: seq<bool>): Folding
    decreases |keys|
  {
    if |keys| == 0 then s else Run(t, Update(t, s, keys[0]), keys[1..])
  }

  /** Counting presses: after any run, the first fold is done exactly when
      there was at least one press, the second exactly when there were two,
      starting from a fresh component. */
  function Presses(keys: seq<bool>): (n: nat)
    ensures n == multiset(keys)[true]
    decreases |keys|
  {
    if |keys| == 0 then
      0
    else
      assert keys == [keys[0]] + keys[1..];
      (if keys[0] then 1 else 0) + Presses(keys[1..])
  }

  lemma {:induction false} RunCountsPresses(t: Trig, s: Folding, keys: seq<bool>)
    requires s == Folding(s.mesh, false, false)
       || s == Folding(s.mesh, true, false)
       || s == Folding(s.mesh, true, true)
    ensures var done := (if s.secondFoldDone then 2 else if s.firstFoldDone then 1 else 0) + Presses(keys);
            var r := Run(t, s, keys);
            && (r.firstFoldDone <==> done >= 1)
            && (r.secondFoldDone <==> done >= 2)
            && (r.mesh.None? <==> s.mesh.None?)
    decreases |keys|
  {
    if |keys| > 0 {
      RunCountsPresses(t, Update(t, s, keys[0]), keys[1..]);
    }
  }

  /** Mathematically exact quarter turns: cos(±90°) = 0, sin(±90°) = ±1. */
  predicate ExactQuarterTurns(t: Trig) {
    && t.cos(QuarterTurn * t.deg2rad) == 0.0
    && t.sin(QuarterTurn * t.deg2rad) == 1.0
    && t.cos(-QuarterTurn * t.deg2rad) == 0.0
    && t.sin(-QuarterTurn * t.deg2rad) == -1.0
  }

  function Abs(a: real): real {
    if a < 0.0 then -a else a
  }

  /** For a flat mesh (y = 0) and exact quarter turns, the first fold stands
      both halves up along +y, and the second lays them both down on the
      negative x side: each vertex ends at (-|x|, 0, z), the right half
      mirrored onto the left. */
  lemma {:induction false} TwoFoldsOfFlatVertex(t: Trig, v: Vec3)
    requires ExactQuarterTurns(t)
    requires v.y == 0.0
    ensures FirstFoldVertex(t, v) == Vec3(0.0, Abs(v.x), v.z)
    ensures SecondFoldVertex(t, FirstFoldVertex(t, v)) == Vec3(-Abs(v.x), 0.0, v.z)
  {
    var u := FirstFoldVertex(t, v);
    if v.x > 0.0 {
      assert u == Vec3(v.x * 0.0 - 0.0 * 1.0, v.x * 1.0 + 0.0 * 0.0, v.z);
    } else if v.x < 0.0 {
      assert u == Vec3(v.x * 0.0 - 0.0 * -1.0, v.x * -1.0 + 0.0 * 0.0, v.z);
    }
    if u.y > 0.0 {
      assert SecondFoldVertex(t, u) == Vec3(0.0 * 0.0 - u.y * 1.0, 0.0 * 1.0 + u.y * 0.0, u.z);
    }
  }

  /** Two presses on a flat mesh, over the whole vertex array. */
  lemma {:induction false} TwoPressesFoldFlatMesh(t: Trig, vs: seq<Vec3>)
    requires ExactQuarterTurns(t)
    requires forall i :: 0 <= i < |vs| ==> vs[i].y == 0.0
    ensures var r := Update(t, Update(t, Folding(Some(vs), false, false), true), true);
            && r.firstFoldDone && r.secondFoldDone
            && r.mesh.Some? && |r.mesh.value| == |vs|
            && forall i :: 0 <= i < |vs| ==> r.mesh.value[i] == Vec3(-Abs(vs[i].x), 0.0, vs[i].z)
  {
    var r := Update(t, Update(t, Folding(Some(vs), false, false), true), true);
    forall i | 0 <= i < |vs|
      ensures r.mesh.value[i] == Vec3(-Abs(vs[i].x), 0.0, vs[i].z)
    {
      TwoFoldsOfFlatVertex(t, vs[i]);
    }
  }
}
