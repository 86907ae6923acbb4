/** The interactive fly-through camera of the OpenGL preview (`Camera` in
    src/camera.h and src/camera.cpp): a position, three axes derived from
    Euler angles, a zoom, and the table of keys held down, all updated in
    place by the input handlers. */
module Cameras {
  import opened RealMath
  import opened Basic
  import opened RayTracing

  /** `Camera_Movement`. */
  datatype Movement = Forward | Backward | Left | Right | Up | Down

  /** The direction that undoes a move. */
  function Opposite(d: Movement): (o: Movement)
    ensures o != d
  {
    match d
    case Forward => Backward
    case Backward => Forward
    case Left => Right
    case Right => Left
    case Up => Down
    case Down => Up
  }

  /** The size of `bool keys[1024]`. */
  const kKeyCount: nat := 1024

  /** The Qt key codes `processInput` looks at (`Qt::Key_W` and so on). */
  const kKeyW: nat := 0x57
  const kKeyS: nat := 0x53
  const kKeyA: nat := 0x41
  const kKeyD: nat := 0x44
  const kKeyQ: nat := 0x51
  const kKeyE: nat := 0x45

  /** The default arguments of the constructor and of `set` (src/global.h). */
  const kDefaultUp: Vector := Vector(0.0, 1.0, 0.0)
  const kDefaultYaw: real := -90.0
  const kDefaultPitch: real := 0.0
  const kDefaultNearPlane: real := 0.1
  const kDefaultFarPlane: real := 100.0
  const kDefaultSpeed: real := 0.5
  const kDefaultSensitivity: real := 0.01
  const kDefaultZoom: real := 45.0

  /** The pitch limit of `processMouseMovement`, in degrees, although the
      angle goes to `cos` and `sin` as radians. */
  const kPitchLimit: real := 89.0

  /** The zoom range `processMouseScroll` keeps. */
  const kZoomMin: real := 1.0
  const kZoomMax: real := 45.0

  /** The front direction before normalisation: `cos(yaw) cos(pitch)`,
      `sin(pitch)`, `sin(yaw) cos(pitch)`. */
  function EulerFront(m: Intrinsics, yaw: real, pitch: real): Vector
  {
    Vector(m.cos(yaw) * m.cos(pitch), m.sin(pitch), m.sin(yaw) * m.cos(pitch))
  }

  /** The axes `updateCameraVectors` stores: front, right and up, each
      normalised. */
  function CameraAxes(m: Intrinsics, yaw: real, pitch: real, worldUp: Vector): (Vector, Vector, Vector)
  {
    var front := Normalized(m, EulerFront(m, yaw, pitch));
    var right := Normalized(m, Cross(front, worldUp));
    (front, right, Normalized(m, Cross(right, front)))
  }

  /** The axes are those the ray tracer's camera builds from the same front
      and up (normalising its up axis again changes nothing), so they are
      orthonormal whenever the front is not parallel to the world up. */
  lemma CameraAxesOrthonormal(m: Intrinsics, yaw: real, pitch: real, worldUp: Vector)
    requires Sound(m) && Cross(EulerFront(m, yaw, pitch), worldUp) != Zero
    ensures CameraAxes(m, yaw, pitch, worldUp) == Frame(m, EulerFront(m, yaw, pitch), worldUp)
    ensures var (front, right, up) := CameraAxes(m, yaw, pitch, worldUp);
      Orthonormal(front, right, up)
  {
    var raw := EulerFront(m, yaw, pitch);
    FrameOrthonormal(m, raw, worldUp);
    NormalizedUnit(m, Frame(m, raw, worldUp).2);
  }

  // ------------------------------------------ the angles in radians

  /** Degrees to radians, the conversion the Euler angles were meant to go
      through before `cos` and `sin`. */
  function Radians(degrees: real): real
  {
    degrees * kPi / 180.0
  }

  /** The facts about `sin` and `cos` the intended front relies on:
      sin^2 + cos^2 = 1, and cos is positive strictly between -kPi/2 and
      kPi/2. `kPi` is just below pi, so the real functions satisfy both. */
  ghost predicate TrigSound(m: Intrinsics)
  {
    (forall x :: Sq(m.sin(x)) + Sq(m.cos(x)) == 1.0) &&
    (forall x :: -kPi / 2.0 < x < kPi / 2.0 ==> 0.0 < m.cos(x))
  }

  /** With the angles converted to radians, every pitch the +-89 clamp
      admits keeps the front off the default world up axis, so the camera
      axes are orthonormal. */
  lemma RadiansFrontOffUp(m: Intrinsics, yaw: real, pitch: real)
    requires Sound(m) && TrigSound(m) && -kPitchLimit <= pitch <= kPitchLimit
    ensures Cross(EulerFront(m, Radians(yaw), Radians(pitch)), kDefaultUp) != Zero
    ensures var (front, right, up) := CameraAxes(m, Radians(yaw), Radians(pitch), kDefaultUp);
      Orthonormal(front, right, up)
  {
    var y := Radians(yaw);
    var p := Radians(pitch);
    assert -kPi / 2.0 < p < kPi / 2.0;
    var c := m.cos(p);
    assert 0.0 < c;
    var f := EulerFront(m, y, p);
    if Cross(f, kDefaultUp) == Zero {
      assert m.cos(y) * c == 0.0 && m.sin(y) * c == 0.0;
      FactorZero(m.cos(y), c);
      FactorZero(m.sin(y), c);
      assert false;
    }
    CameraAxesOrthonormal(m, y, p, kDefaultUp);
  }

  lemma FactorZero(a: real, c: real)
    requires 0.0 < c && a * c == 0.0
    ensures a == 0.0
  {
  }

  /** As written, the angles go to `cos` and `sin` in degrees, and a pitch
      at which `cos` vanishes leaves the front parallel to the world up.
      The real cosine vanishes at pi/2, about 1.571, which the clamp admits. */
  lemma DegreesFrontOnUp(m: Intrinsics, yaw: real, pitch: real)
    requires m.cos(pitch) == 0.0
    ensures Cross(EulerFront(m, yaw, pitch), kDefaultUp) == Zero
  {
  }

  /** `processKeyboard`: the position after a move of `velocity` along the
      chosen axis, forward and backward along front, left and right along
      right, up and down along up. */
  function Moved(position: Point, d: Movement, front: Vector, right: Vector, up: Vector,
                 velocity: real): Point
  {
    match d
    case Forward => position.Plus(front.Scaled(velocity))
    case Backward => position.Minus(front.Scaled(velocity))
    case Left => position.Minus(right.Scaled(velocity))
    case Right => position.Plus(right.Scaled(velocity))
    case Up => position.Plus(up.Scaled(velocity))
    case Down => position.Minus(up.Scaled(velocity))
  }

  /** The axis a move goes along, and the sign it goes with. */
  function Axis(d: Movement, front: Vector, right: Vector, up: Vector): Vector
  {
    match d
    case Forward | Backward => front
    case Left | Right => right
    case Up | Down => up
  }

  function Sign(d: Movement): real
  {
    match d
    case Forward | Right | Up => 1.0
    case Backward | Left | Down => -1.0
  }

  /** A move displaces the position by exactly `velocity` times the axis,
      with the move's sign. */
  lemma MovedDisplacement(position: Point, d: Movement, front: Vector, right: Vector, up: Vector,
                          velocity: real)
    ensures Moved(position, d, front, right, up, velocity).Minus(position)
      == Axis(d, front, right, up).Scaled(Sign(d) * velocity)
  {
    var k := Sign(d) * velocity;
    if Sign(d) == 1.0 {
      assert k == velocity;
    } else {
      assert k == -velocity;
    }
    var a := Axis(d, front, right, up);
    assert Moved(position, d, front, right, up, velocity).Minus(position) == a.Scaled(k);
  }

  /** The length of a move is |velocity| times that of its axis: a unit
      axis moves the camera by exactly `movementSpeed * deltaTime`. */
  lemma MovedDistance(position: Point, d: Movement, front: Vector, right: Vector, up: Vector,
                      velocity: real)
    ensures Length2(Moved(position, d, front, right, up, velocity).Minus(position))
      == Sq(velocity) * Length2(Axis(d, front, right, up))
  {
    MovedDisplacement(position, d, front, right, up, velocity);
    var k := Sign(d) * velocity;
    Length2Scaled(Axis(d, front, right, up), k);
    if Sign(d) != 1.0 {
      assert k == -velocity;
      SqTimes(-1.0, velocity);
    }
  }

  /** A move followed by the opposite move with the same velocity returns to
      the start, as it does over the reals. */
  lemma MovedOpposite(position: Point, d: Movement, front: Vector, right: Vector, up: Vector,
                      velocity: real)
    ensures Moved(Moved(position, d, front, right, up, velocity), Opposite(d), front, right, up, velocity)
      == position
  {
  }

  /** One test of `processInput`: the move is made when its key is held. */
  function Step(position: Point, held: bool, d: Movement, front: Vector, right: Vector, up: Vector,
                velocity: real): Point
  {
    if held then Moved(position, d, front, right, up, velocity) else position
  }

  /** The six moves of `processInput`, in its order, each made when its key
      is held down. */
  function InputMoved(position: Point, keys: seq<bool>, front: Vector, right: Vector, up: Vector,
                      velocity: real): Point
    requires |keys| == kKeyCount
  {
    var p2 := Step(Step(position, keys[kKeyW], Forward, front, right, up, velocity),
                   keys[kKeyS], Backward, front, right, up, velocity);
    var p4 := Step(Step(p2, keys[kKeyA], Left, front, right, up, velocity),
                   keys[kKeyD], Right, front, right, up, velocity);
    Step(Step(p4, keys[kKeyQ], Up, front, right, up, velocity),
         keys[kKeyE], Down, front, right, up, velocity)
  }

  /** 1 for a key held down, 0 otherwise. */
  function Bit(held: bool): real
  {
    if held then 1.0 else 0.0
  }

  /** Two opposite tests, in either order, move by the difference of the two
      keys along the axis: nothing when both or neither are held. */
  lemma PairMoved(position: Point, d: Movement, h: bool, hOpposite: bool, front: Vector, right: Vector,
                  up: Vector, velocity: real)
    requires Sign(d) == 1.0
    ensures Step(Step(position, h, d, front, right, up, velocity), hOpposite, Opposite(d), front, right, up, velocity)
      == position.Plus(Axis(d, front, right, up).Scaled((Bit(h) - Bit(hOpposite)) * velocity))
    ensures Step(Step(position, hOpposite, Opposite(d), front, right, up, velocity), h, d, front, right, up, velocity)
      == position.Plus(Axis(d, front, right, up).Scaled((Bit(h) - Bit(hOpposite)) * velocity))
  {
    var k := (Bit(h) - Bit(hOpposite)) * velocity;
    if h == hOpposite {
      assert k == 0.0;
    } else if h {
      assert k == velocity;
    } else {
      assert k == -velocity;
    }
  }

  /** The input moves in closed form: W minus S along front, D minus A along
      right, Q minus E along up. Opposite keys held together cancel, and
      swapping the order of opposite tests changes nothing. */
  lemma InputMovedClosedForm(position: Point, keys: seq<bool>, front: Vector, right: Vector, up: Vector,
                             velocity: real)
    requires |keys| == kKeyCount
    ensures InputMoved(position, keys, front, right, up, velocity) ==
      position
        .Plus(front.Scaled((Bit(keys[kKeyW]) - Bit(keys[kKeyS])) * velocity))
        .Plus(right.Scaled((Bit(keys[kKeyD]) - Bit(keys[kKeyA])) * velocity))
        .Plus(up.Scaled((Bit(keys[kKeyQ]) - Bit(keys[kKeyE])) * velocity))
  {
    var p2 := Step(Step(position, keys[kKeyW], Forward, front, right, up, velocity),
                   keys[kKeyS], Backward, front, right, up, velocity);
    PairMoved(position, Forward, keys[kKeyW], keys[kKeyS], front, right, up, velocity);
    assert p2 == position.Plus(front.Scaled((Bit(keys[kKeyW]) - Bit(keys[kKeyS])) * velocity));
    var p4 := Step(Step(p2, keys[kKeyA], Left, front, right, up, velocity),
                   keys[kKeyD], Right, front, right, up, velocity);
    PairMoved(p2, Right, keys[kKeyD], keys[kKeyA], front, right, up, velocity);
    assert p4 == p2.Plus(right.Scaled((Bit(keys[kKeyD]) - Bit(keys[kKeyA])) * velocity));
    PairMoved(p4, Up, keys[kKeyQ], keys[kKeyE], front, right, up, velocity);
  }

  /** Only W, S, A, D, Q and E matter: key tables that agree on those six give
      the same move, and with none of them held the position stays put. */
  lemma InputOnlySixKeys(position: Point, keys: seq<bool>, keys2: seq<bool>, front: Vector, right: Vector,
                         up: Vector, velocity: real)
    requires |keys| == kKeyCount && |keys2| == kKeyCount
    requires keys[kKeyW] == keys2[kKeyW] && keys[kKeyS] == keys2[kKeyS] && keys[kKeyA] == keys2[kKeyA]
    requires keys[kKeyD] == keys2[kKeyD] && keys[kKeyQ] == keys2[kKeyQ] && keys[kKeyE] == keys2[kKeyE]
    ensures InputMoved(position, keys, front, right, up, velocity)
      == InputMoved(position, keys2, front, right, up, velocity)
    ensures !keys[kKeyW] && !keys[kKeyS] && !keys[kKeyA] && !keys[kKeyD] && !keys[kKeyQ] && !keys[kKeyE] ==>
      InputMoved(position, keys, front, right, up, velocity) == position
  {
  }

  /** `processMouseScroll`: a zoom inside [1, 45] moves by the offset, then
      the result is clamped into [1, 45]; a zoom outside the range is only
      clamped. */
  function ScrolledZoom(zoom: real, yoffset: real): (z: real)
    ensures kZoomMin <= z <= kZoomMax
    ensures kZoomMin <= zoom <= kZoomMax && kZoomMin <= zoom - yoffset <= kZoomMax ==> z == zoom - yoffset
    ensures kZoomMin <= zoom <= kZoomMax && zoom - yoffset > kZoomMax ==> z == kZoomMax
    ensures kZoomMin <= zoom <= kZoomMax && zoom - yoffset < kZoomMin ==> z == kZoomMin
    ensures zoom > kZoomMax ==> z == kZoomMax
    ensures zoom < kZoomMin ==> z == kZoomMin
  {
    var z := if kZoomMin <= zoom <= kZoomMax then zoom - yoffset else zoom;
    if z > kZoomMax then kZoomMax else if z < kZoomMin then kZoomMin else z
  }

  /** The pitch clamp of `processMouseMovement`: first the upper limit, then
      the lower one. */
  function ClampedPitch(pitch: real): (p: real)
    ensures -kPitchLimit <= p <= kPitchLimit
    ensures -kPitchLimit <= pitch <= kPitchLimit ==> p == pitch
    ensures pitch > kPitchLimit ==> p == kPitchLimit
    ensures pitch < -kPitchLimit ==> p == -kPitchLimit
  {
    var p := if pitch > kPitchLimit then kPitchLimit else pitch;
    if p < -kPitchLimit then -kPitchLimit else p
  }

  class Camera {
    var position: Point
    var worldUp: Vector
    var front: Vector
    var up: Vector
    var right: Vector

    /** Euler angles. */
    var pitch: real
    var yaw: real

    var nearPlane: real
    var farPlane: real
    var movementSpeed: real
    var mouseSensitivity: real
    var zoom: real

    /** `bool keys[1024]`: the key table belongs to the camera; the entries
        change, the table does not. */
    const keys: array<bool>

    predicate Valid()
      reads this
    {
      keys.Length == kKeyCount
    }

    /** The stored axes are those of the Euler angles and the world up. */
    ghost predicate AxesCurrent(m: Intrinsics)
      reads this
    {
      (front, right, up) == CameraAxes(m, yaw, pitch, worldUp)
    }

    /** No key is held down. */
    predicate NoKeys()
      reads this, keys
    {
      forall k :: 0 <= k < keys.Length ==> !keys[k]
    }

    /** `Camera()`: only the key table is set, every key released; the other
        fields keep whatever value they had. */
    constructor ()
      ensures Valid() && NoKeys() && fresh(keys)
    {
      keys := new bool[kKeyCount];
      new;
      ReleaseKeys();
    }

    /** `Camera(position, up, yaw, pitch, ...)`: the fields as given, front
        first set to `-position` and then replaced by `updateCameraVectors`,
        and every key released. */
    constructor WithPose(m: Intrinsics, position: Point, up: Vector := kDefaultUp,
                         yaw: real := kDefaultYaw, pitch: real := kDefaultPitch,
                         nearPlane: real := kDefaultNearPlane, farPlane: real := kDefaultFarPlane,
                         speed: real := kDefaultSpeed, sensitivity: real := kDefaultSensitivity,
                         zoom: real := kDefaultZoom)
      ensures Valid() && NoKeys() && fresh(keys)
      ensures this.position == position && worldUp == up
      ensures this.yaw == yaw && this.pitch == pitch
      ensures this.nearPlane == nearPlane && this.farPlane == farPlane
      ensures movementSpeed == speed && mouseSensitivity == sensitivity && this.zoom == zoom
      ensures AxesCurrent(m)
    {
      this.position := position;
      worldUp := up;
      front := position.Neg();
      this.pitch := pitch;
      this.yaw := yaw;
      this.nearPlane := nearPlane;
      this.farPlane := farPlane;
      movementSpeed := speed;
      mouseSensitivity := sensitivity;
      this.zoom := zoom;
      keys := new bool[kKeyCount];
      new;
      UpdateCameraVectors(m);
      ReleaseKeys();
    }

    /** The loop `for (i = 0; i != 1024; ++i) keys[i] = false` that both
        constructors run. */
    method ReleaseKeys()
      requires Valid()
      modifies keys
      ensures NoKeys()
    {
      var i := 0;
      while i != kKeyCount
        invariant 0 <= i <= kKeyCount
        invariant forall k :: 0 <= k < i ==> !keys[k]
      {
        keys[i] := false;
        i := i + 1;
      }
    }

    /** `set(...)`: the same fields as the constructor, the key table left
        alone. */
    method Set(m: Intrinsics, position: Point, up: Vector := kDefaultUp,
               yaw: real := kDefaultYaw, pitch: real := kDefaultPitch,
               nearPlane: real := kDefaultNearPlane, farPlane: real := kDefaultFarPlane,
               speed: real := kDefaultSpeed, sensitivity: real := kDefaultSensitivity,
               zoom: real := kDefaultZoom)
      modifies this
      ensures this.position == position && worldUp == up
      ensures this.yaw == yaw && this.pitch == pitch
      ensures this.nearPlane == nearPlane && this.farPlane == farPlane
      ensures movementSpeed == speed && mouseSensitivity == sensitivity && this.zoom == zoom
      ensures AxesCurrent(m)
    {
      this.position := position;
      worldUp := up;
      front := position.Neg();
      this.yaw := yaw;
      this.pitch := pitch;
      this.nearPlane := nearPlane;
      this.farPlane := farPlane;
      movementSpeed := speed;
      mouseSensitivity := sensitivity;
      this.zoom := zoom;
      UpdateCameraVectors(m);
    }

    /** `updateCameraVectors`: front from the Euler angles, then right and
        up from front and the world up; nothing else changes. */
    method UpdateCameraVectors(m: Intrinsics)
      modifies this`front, this`right, this`up
      ensures AxesCurrent(m)
    {
      var f := EulerFront(m, yaw, pitch);
      front := Normalized(m, f);
      right := Normalized(m, Cross(front, worldUp));
      up := Normalized(m, Cross(right, front));
    }

    /** `processKeyboard`: one move of `movementSpeed * deltaTime` along the
        chosen axis; only the position changes. */
    method ProcessKeyboard(d: Movement, deltaTime: real)
      modifies this`position
      ensures position == old(Moved(position, d, front, right, up, movementSpeed * deltaTime))
    {
      var velocity := movementSpeed * deltaTime;
      if d == Forward {
        position := position.Plus(front.Scaled(velocity));
      }
      if d == Backward {
        position := position.Minus(front.Scaled(velocity));
      }
      if d == Left {
        position := position.Minus(right.Scaled(velocity));
      }
      if d == Right {
        position := position.Plus(right.Scaled(velocity));
      }
      if d == Up {
        position := position.Plus(up.Scaled(velocity));
      }
      if d == Down {
        position := position.Minus(up.Scaled(velocity));
      }
    }

    /** `processMouseMovement`: the offsets, scaled by the sensitivity, are
        added to yaw and pitch, the pitch is clamped to [-89, 89] when asked
        (the default), and the axes follow the new angles. */
    method ProcessMouseMovement(m: Intrinsics, xoffset: real, yoffset: real, constrainPitch: bool := true)
      modifies this`yaw, this`pitch, this`front, this`right, this`up
      ensures yaw == old(yaw + xoffset * mouseSensitivity)
      ensures pitch == if constrainPitch then ClampedPitch(old(pitch + yoffset * mouseSensitivity))
                       else old(pitch + yoffset * mouseSensitivity)
      ensures constrainPitch ==> -kPitchLimit <= pitch <= kPitchLimit
      ensures AxesCurrent(m)
    {
      var dx := xoffset * mouseSensitivity;
      var dy := yoffset * mouseSensitivity;
      yaw := yaw + dx;
      pitch := pitch + dy;
      if constrainPitch {
        if pitch > kPitchLimit {
          pitch := kPitchLimit;
        }
        if pitch < -kPitchLimit {
          pitch := -kPitchLimit;
        }
      }
      UpdateCameraVectors(m);
    }

    /** `processMouseScroll`: only the zoom changes. */
    method ProcessMouseScroll(yoffset: real)
      modifies this`zoom
      ensures zoom == ScrolledZoom(old(zoom), yoffset)
    {
      if kZoomMin <= zoom && zoom <= kZoomMax {
        zoom := zoom - yoffset;
      }
      if zoom > kZoomMax {
        zoom := kZoomMax;
      }
      if zoom < kZoomMin {
        zoom := kZoomMin;
      }
    }

    /** `processInput`: one move per key among W, S, A, D, Q and E that is
        held down, in that order; only the position changes. */
    method ProcessInput(dt: real)
      requires Valid()
      modifies this`position
      ensures position == old(InputMoved(position, keys[..], front, right, up, movementSpeed * dt))
    {
      ghost var ks, p, v := keys[..], position, movementSpeed * dt;
      ghost var f, r, u := front, right, up;
      assert keys[kKeyW] == ks[kKeyW] && front == f && right == r && up == u && movementSpeed * dt == v;
      ProcessKey(kKeyW, Forward, dt);
      p := Step(p, ks[kKeyW], Forward, f, r, u, v);
      assert position == p;
      assert keys[kKeyS] == ks[kKeyS] && front == f && right == r && up == u && movementSpeed * dt == v;
      ProcessKey(kKeyS, Backward, dt);
      p := Step(p, ks[kKeyS], Backward, f, r, u, v);
      assert position == p;
      assert keys[kKeyA] == ks[kKeyA] && front == f && right == r && up == u && movementSpeed * dt == v;
      ProcessKey(kKeyA, Left, dt);
      p := Step(p, ks[kKeyA], Left, f, r, u, v);
      assert position == p;
      assert keys[kKeyD] == ks[kKeyD] && front == f && right == r && up == u && movementSpeed * dt == v;
      ProcessKey(kKeyD, Right, dt);
      p := Step(p, ks[kKeyD], Right, f, r, u, v);
      assert position == p;
      assert keys[kKeyQ] == ks[kKeyQ] && front == f && right == r && up == u && movementSpeed * dt == v;
      ProcessKey(kKeyQ, Up, dt);
      p := Step(p, ks[kKeyQ], Up, f, r, u, v);
      assert position == p;
      assert keys[kKeyE] == ks[kKeyE] && front == f && right == r && up == u && movementSpeed * dt == v;
      ProcessKey(kKeyE, Down, dt);
      p := Step(p, ks[kKeyE], Down, f, r, u, v);
      assert position == p;
    }

    /** One test of `processInput`: `if (keys[key]) processKeyboard(d, dt)`. */
    method ProcessKey(key: nat, d: Movement, dt: real)
      requires Valid() && key < kKeyCount
      modifies this`position
      ensures position == old(Step(position, keys[key], d, front, right, up, movementSpeed * dt))
    {
      if keys[key] {
        ProcessKeyboard(d, dt);
      }
    }
  }
}
