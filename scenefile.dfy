/** The parts of the scene file format (src/scene.cpp) that the ray tracer
    depends on: the element order of a stored 4x4 matrix and the keys of a
    stored light. Only the JSON values these readers and writers touch are
    modelled, with the defaults `QJsonValue` returns for a missing key, an
    index past the end or a value of another type. */
module SceneFiles {
  import opened Wrappers
  import opened RealMath
  import opened Basic
  import opened Lights

  // ------------------------------------------------------------ JSON values

  /** A `QJsonValue`; `Undefined` is what a missing key or index reads as. */
  datatype Json =
    | Undefined
    | Number(num: real)
    | Text(text: string)
    | Array(items: seq<Json>)
    | Object(fields: map<string, Json>)

  /** `obj[key]` on a read. */
  function Get(obj: map<string, Json>, key: string): Json
  {
    if key in obj then obj[key] else Undefined
  }

  /** `QJsonArray::at(i)`. */
  function At(arr: seq<Json>, i: int): Json
  {
    if 0 <= i < |arr| then arr[i] else Undefined
  }

  /** `toDouble()`: 0 for anything that is not a number. */
  function ToDouble(v: Json): real
  {
    if v.Number? then v.num else 0.0
  }

  /** `toObject()`: the empty object for anything that is not an object. */
  function ToObject(v: Json): map<string, Json>
  {
    if v.Object? then v.fields else map[]
  }

  /** `toInt()`: the number when it is a whole number that fits in an `int`,
      and 0 otherwise. */
  function ToInt(v: Json): (i: int)
    ensures v.Number? && v.num == v.num.Floor as real && -0x8000_0000 <= v.num.Floor < 0x8000_0000
      ==> i == v.num.Floor
    ensures !(v.Number? && v.num == v.num.Floor as real && -0x8000_0000 <= v.num.Floor < 0x8000_0000)
      ==> i == 0
  {
    if v.Number? && v.num == v.num.Floor as real && -0x8000_0000 <= v.num.Floor < 0x8000_0000
    then v.num.Floor
    else 0
  }

  /** `loadQVector3D`: the `x`, `y` and `z` members, 0 where one is missing. */
  function LoadVector(obj: map<string, Json>): Vector
  {
    Vector(ToDouble(Get(obj, "x")), ToDouble(Get(obj, "y")), ToDouble(Get(obj, "z")))
  }

  /** `saveQVector3D`. */
  function SaveVector(v: Vector): map<string, Json>
  {
    map["x" := Number(v.x), "y" := Number(v.y), "z" := Number(v.z)]
  }

  /** Reading back a stored vector gives the vector, and what is stored is
      exactly the three keys. */
  lemma VectorRoundTrip(v: Vector)
    ensures LoadVector(SaveVector(v)) == v
    ensures SaveVector(v).Keys == {"x", "y", "z"}
  {
  }

  // -------------------------------------------------------------- matrices

  /** The index map of `loadQMatrix4x4`: element r*4+c of the row-major
      array takes element c*4+r of the stored, column-major, array. */
  function Transpose(i: int): (j: int)
    requires 0 <= i < 16
    ensures 0 <= j < 16
  {
    (i % 4) * 4 + i / 4
  }

  lemma TransposeRowColumn(r: int, c: int)
    requires 0 <= r < 4 && 0 <= c < 4
    ensures Transpose(r * 4 + c) == c * 4 + r
  {
  }

  /** The index map is its own inverse, and so a bijection on 0..15. */
  lemma TransposeInvolution(i: int)
    requires 0 <= i < 16
    ensures Transpose(Transpose(i)) == i
  {
    var r, c := i / 4, i % 4;
    assert i == r * 4 + c;
    TransposeRowColumn(r, c);
    TransposeRowColumn(c, r);
  }

  lemma TransposeInjective(i: int, j: int)
    requires 0 <= i < 16 && 0 <= j < 16 && Transpose(i) == Transpose(j)
    ensures i == j
  {
    TransposeInvolution(i);
    TransposeInvolution(j);
  }

  lemma TransposeOnto(j: int)
    requires 0 <= j < 16
    ensures exists i :: 0 <= i < 16 && Transpose(i) == j
  {
    TransposeInvolution(j);
  }

  /** The sixteen values handed to `QMatrix4x4(const float*)`, row by row. */
  function LoadedMatrix(arr: seq<Json>): (values: seq<real>)
    ensures |values| == 16
  {
    seq(16, i requires 0 <= i < 16 => ToDouble(At(arr, Transpose(i))))
  }

  /** What `saveQMatrix4x4` writes: `data()`, the column-major storage. */
  function SavedMatrix(values: seq<real>): (arr: seq<Json>)
    requires |values| == 16
    ensures |arr| == 16
  {
    seq(16, i requires 0 <= i < 16 => Number(values[Transpose(i)]))
  }

  /** Entry (r, c) of a loaded matrix is stored element c*4+r. */
  lemma LoadedEntry(arr: seq<Json>, r: int, c: int)
    requires 0 <= r < 4 && 0 <= c < 4
    ensures LoadedMatrix(arr)[r * 4 + c] == ToDouble(At(arr, c * 4 + r))
  {
    TransposeRowColumn(r, c);
  }

  /** Loading a saved matrix gives it back. */
  lemma {:induction false} MatrixRoundTrip(values: seq<real>)
    requires |values| == 16
    ensures LoadedMatrix(SavedMatrix(values)) == values
  {
    forall i | 0 <= i < 16
      ensures LoadedMatrix(SavedMatrix(values))[i] == values[i]
    {
      TransposeInvolution(i);
    }
  }

  /** `loadQMatrix4x4`: the double loop over columns and rows. */
  method LoadQMatrix4x4(arrObj: seq<Json>) returns (values: seq<real>)
    ensures values == LoadedMatrix(arrObj)
  {
    var arr := new real[16];
    for c := 0 to 4
      invariant forall i :: 0 <= i < 16 && i % 4 < c ==> arr[i] == ToDouble(At(arrObj, Transpose(i)))
    {
      for r := 0 to 4
        invariant forall i :: 0 <= i < 16 && (i % 4 < c || (i % 4 == c && i / 4 < r)) ==>
          arr[i] == ToDouble(At(arrObj, Transpose(i)))
      {
        TransposeRowColumn(r, c);
        arr[r * 4 + c] := ToDouble(At(arrObj, c * 4 + r));
      }
    }
    values := arr[..];
  }

  /** `saveQMatrix4x4`: `data()` appended element by element. */
  method SaveQMatrix4x4(values: seq<real>) returns (arrObj: seq<Json>)
    requires |values| == 16
    ensures arrObj == SavedMatrix(values)
  {
    var data := seq(16, i requires 0 <= i < 16 => values[Transpose(i)]);
    arrObj := [];
    for i := 0 to 16
      invariant |arrObj| == i
      invariant forall j :: 0 <= j < i ==> arrObj[j] == Number(values[Transpose(j)])
    {
      arrObj := arrObj + [Number(data[i])];
    }
  }

  // ---------------------------------------------------------------- lights

  /** `loadLight`. A type other than `PointLight` or `ParallelLight`
      reaches the end of the function without a `return`, which is `None`
      here. */
  function LoadLight(m: Intrinsics, obj: map<string, Json>): (l: Option<Light>)
    ensures l.Some? <==> ToInt(Get(obj, "type")) == Code(Point) || ToInt(Get(obj, "type")) == Code(Parallel)
    ensures l.Some? ==> Code(Type(l.value)) == ToInt(Get(obj, "type"))
  {
    var t := ToInt(Get(obj, "type"));
    if t == Code(Point) then
      Some(NewPointLightAt(VectorColor(LoadVector(ToObject(Get(obj, "light_color")))),
                           LoadVector(ToObject(Get(obj, "light_position")))))
    else if t == Code(Parallel) then
      Some(NewParallelLight(m, VectorColor(LoadVector(ToObject(Get(obj, "light_color")))),
                            LoadVector(ToObject(Get(obj, "light_direction")))))
    else None
  }

  /** `saveLight`: the type code, then the keys of the variant. */
  function SaveLight(l: Light): map<string, Json>
  {
    var obj := map["type" := Number(Code(Type(l)) as real)];
    match l
    case BaseLight(_) => obj
    case PointLight(color, position) =>
      obj["light_color" := Object(SaveVector(ColorVector(color)))]
         ["light_position" := Object(SaveVector(position))]
    case ParallelLight(color, direction) =>
      obj["light_color" := Object(SaveVector(ColorVector(color)))]
         ["light_direction" := Object(SaveVector(direction))]
  }

  /** The keys `saveLight` writes per variant, which are the keys
      `loadLight` reads for that type. */
  lemma SaveLightKeys(l: Light)
    ensures l.BaseLight? ==> SaveLight(l).Keys == {"type"}
    ensures l.PointLight? ==> SaveLight(l).Keys == {"type", "light_color", "light_position"}
    ensures l.ParallelLight? ==> SaveLight(l).Keys == {"type", "light_color", "light_direction"}
  {
  }

  /** A saved point light loads back as itself, and so does a parallel light
      whose direction is a unit vector (every parallel light the constructor
      builds from a non-zero direction); a saved base light cannot be loaded. */
  lemma LightRoundTrip(m: Intrinsics, l: Light)
    requires Sound(m)
    requires l.ParallelLight? ==> Length2(l.direction) == 1.0
    ensures l.BaseLight? <==> LoadLight(m, SaveLight(l)).None?
    ensures !l.BaseLight? ==> LoadLight(m, SaveLight(l)) == Some(l)
  {
    var obj := SaveLight(l);
    assert Get(obj, "type") == Number(Code(Type(l)) as real);
    assert ToInt(Get(obj, "type")) == Code(Type(l));
    match l
    case BaseLight(_) =>
    case PointLight(color, position) =>
      VectorRoundTrip(ColorVector(color));
      VectorRoundTrip(position);
    case ParallelLight(color, direction) =>
      VectorRoundTrip(ColorVector(color));
      VectorRoundTrip(direction);
  }
}
