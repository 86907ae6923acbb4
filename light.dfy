/** The light sources (src/light.h): a base light with only a colour, a point
    light with a position and a parallel light with a direction. The class
    hierarchy with its `m_type` tag becomes one datatype with a variant per
    class; `Type` recovers the tag. */
module Lights {
  import opened RealMath
  import opened Basic

  /** `Light::LightType`, in declaration order. */
  datatype LightType = Base | Point | Parallel

  /** The integer value of the enumerator, as `saveLight` writes it. */
  function Code(t: LightType): (c: int)
    ensures 0 <= c <= 2
  {
    match t
    case Base => 0
    case Point => 1
    case Parallel => 2
  }

  datatype Light =
    | BaseLight(color: Color)
    | PointLight(color: Color, position: Point)
    | ParallelLight(color: Color, direction: Vector)

  /** `m_type`: the tag each constructor stores. */
  function Type(l: Light): LightType
  {
    match l
    case BaseLight(_) => Base
    case PointLight(_, _) => Point
    case ParallelLight(_, _) => Parallel
  }

  /** `Light()`: a base light; its colour is `Color()`, black. */
  function NewLight(): (l: Light)
    ensures Type(l) == Base && l.color == Black
  {
    BaseLight(Black)
  }

  /** `Light(color)`. */
  function NewColoredLight(color: Color): (l: Light)
    ensures Type(l) == Base && l.color == color
  {
    BaseLight(color)
  }

  /** `PointLight()`: a black point light at the origin. */
  function NewPointLight(): (l: Light)
    ensures Type(l) == Point && l.color == Black && l.position == Zero
  {
    PointLight(Black, Zero)
  }

  /** `PointLight(color, position)`. */
  function NewPointLightAt(color: Color, position: Point): (l: Light)
    ensures Type(l) == Point && l.color == color && l.position == position
  {
    PointLight(color, position)
  }

  /** `ParallelLight(color, direction)` keeps the normalised direction: a
      unit vector for any non-zero argument, and the argument itself when it
      is already a unit vector. */
  function NewParallelLight(m: Intrinsics, color: Color, direction: Vector): (l: Light)
    ensures Type(l) == Parallel && l.color == color
    ensures Sound(m) && direction != Zero ==> Length2(l.direction) == 1.0
    ensures Sound(m) && Length2(direction) == 1.0 ==> l.direction == direction
  {
    NormalizedFacts(m, direction);
    ParallelLight(color, Normalized(m, direction))
  }

  lemma NormalizedFacts(m: Intrinsics, v: Vector)
    ensures Sound(m) && v != Zero ==> Length2(Normalized(m, v)) == 1.0
    ensures Sound(m) && Length2(v) == 1.0 ==> Normalized(m, v) == v
  {
    if Sound(m) && v != Zero {
      NormalizeSpec(m, v);
    }
    if Sound(m) && Length2(v) == 1.0 {
      NormalizedUnit(m, v);
    }
  }
}
