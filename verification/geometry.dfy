/**
 * Block positions, the bounding box of a schematic and the rotation applied
 * to relative offsets when a schematic is pasted.
 */
module Geometry {

  /** A block position or offset (Bukkit's Vector, at whole-block precision). */
  datatype Vec = Vec(x: int, y: int, z: int) {
    function Add(o: Vec): Vec {
      Vec(x + o.x, y + o.y, z + o.z)
    }

    function Sub(o: Vec): Vec {
      Vec(x - o.x, y - o.y, z - o.z)
    }

    /** Vector.multiply: component-wise product. */
    function Mul(o: Vec): Vec {
      Vec(x * o.x, y * o.y, z * o.z)
    }
  }

  const Origin: Vec := Vec(0, 0, 0)

  function Min(a: int, b: int): int {
    if a <= b then a else b
  }

  function Max(a: int, b: int): int {
    if a <= b then b else a
  }

  function Abs(a: int): nat {
    if a < 0 then -a else a
  }

  /** The bounding box of a schematic: a minimum and a maximum corner. */
  datatype Dimensions = Dimensions(min: Vec, max: Vec) {
    /** getDimensions(): the extent from the minimum to the maximum corner. */
    function Size(): Vec {
      max.Sub(min)
    }

    /** The minimum corner is below the maximum corner on every axis. */
    predicate Valid() {
      min.x <= max.x && min.y <= max.y && min.z <= max.z
    }

    /** p lies in the box, borders included. */
    predicate Contains(p: Vec) {
      min.x <= p.x <= max.x && min.y <= p.y <= max.y && min.z <= p.z <= max.z
    }
  }

  /**
   * new Dimensions(pos1, pos2): the box spanned by two corners given in either
   * order; it is the smallest box that holds both corners.
   */
  function FromCorners(a: Vec, b: Vec): (d: Dimensions)
    ensures d.Valid() && d.Contains(a) && d.Contains(b)
    ensures forall e: Dimensions {:trigger e.Contains(a), e.Contains(b)} ::
      e.Contains(a) && e.Contains(b) ==> e.Contains(d.min) && e.Contains(d.max)
    ensures d.Size() == Vec(Abs(b.x - a.x), Abs(b.y - a.y), Abs(b.z - a.z))
  {
    Dimensions(Vec(Min(a.x, b.x), Min(a.y, b.y), Min(a.z, b.z)),
               Vec(Max(a.x, b.x), Max(a.y, b.y), Max(a.z, b.z)))
  }

  /** new Dimensions(x, y, z): a box of the given size anchored at the origin. */
  function FromSize(size: Vec): (d: Dimensions)
    ensures d.min == Origin && d.Size() == size
  {
    Dimensions(Origin, size)
  }

  /** Re-anchoring a box of non-negative size at a corner keeps its size and puts its minimum there. */
  lemma ReanchorKeepsSize(at: Vec, size: Vec)
    requires size.x >= 0 && size.y >= 0 && size.z >= 0
    ensures FromCorners(at, at.Add(size)).min == at
    ensures FromCorners(at, at.Add(size)).Size() == size
  {
  }

  /** The four angles a schematic can be pasted at. */
  datatype RotationAngle = Angle0 | Angle90 | Angle180 | Angle270

  /** The position of an angle's case among the cases of the switch in rotate. */
  function CaseIndex(angle: RotationAngle): nat {
    match angle
    case Angle0 => 0
    case Angle90 => 1
    case Angle180 => 2
    case Angle270 => 3
  }

  /** The statements of case k of the switch in rotate, applied to the multiplier. */
  function CaseBody(k: nat, m: Vec): Vec {
    if k == 1 then m.(x := -1)
    else if k == 2 then m.(x := -1, z := -1)
    else if k == 3 then m.(z := -1)
    else m
  }

  /**
   * The switch in rotate has no break statements: control enters at case k and
   * runs the bodies of every later case as well.
   */
  function FallThrough(k: nat, m: Vec): Vec
    decreases 4 - k
  {
    if k >= 4 then m else FallThrough(k + 1, CaseBody(k, m))
  }

  /**
   * rotate: ANGLE_0 returns the offset itself; every other angle multiplies it
   * by the multiplier the fall-through switch leaves behind. The y component
   * is never touched and the other two keep their magnitude.
   */
  function Rotate(v: Vec, angle: RotationAngle): (r: Vec)
    ensures r.y == v.y
    ensures Abs(r.x) == Abs(v.x) && Abs(r.z) == Abs(v.z)
  {
    if angle == Angle0 then v else v.Mul(FallThrough(CaseIndex(angle), Vec(1, 1, 1)))
  }

  /**
   * What the fall-through switch amounts to: ANGLE_0 is the identity,
   * ANGLE_90 and ANGLE_180 both negate x and z, ANGLE_270 negates z only.
   */
  lemma RotateTable(v: Vec)
    ensures Rotate(v, Angle0) == v
    ensures Rotate(v, Angle90) == Vec(-v.x, v.y, -v.z)
    ensures Rotate(v, Angle180) == Vec(-v.x, v.y, -v.z)
    ensures Rotate(v, Angle270) == Vec(v.x, v.y, -v.z)
  {
    assert FallThrough(1, Vec(1, 1, 1)) == Vec(-1, 1, -1);
    assert FallThrough(2, Vec(1, 1, 1)) == Vec(-1, 1, -1);
    assert FallThrough(3, Vec(1, 1, 1)) == Vec(1, 1, -1);
  }

  /** Every angle undoes itself: rotating twice by the same angle gives the offset back. */
  lemma RotateInvolution(v: Vec, angle: RotationAngle)
    ensures Rotate(Rotate(v, angle), angle) == v
  {
    RotateTable(v);
    RotateTable(Rotate(v, angle));
  }

  /** The origin offset stays put under every angle, so it always lands on the paste anchor. */
  lemma RotateFixesOrigin(angle: RotationAngle)
    ensures Rotate(Origin, angle) == Origin
  {
    RotateTable(Origin);
  }

  /**
   * The transform is not a rotation about the y axis: turning by 90 degrees
   * twice does not give the 180-degree result, since the 90-degree case is
   * already a half turn.
   */
  lemma RotateIsNotQuarterTurn()
    ensures Rotate(Rotate(Vec(1, 0, 0), Angle90), Angle90) != Rotate(Vec(1, 0, 0), Angle180)
  {
    RotateTable(Vec(1, 0, 0));
    RotateTable(Vec(-1, 0, 0));
  }
}
