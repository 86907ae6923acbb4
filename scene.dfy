/** The scene (src/scene.cpp, src/scene.h): the lights with their enable
    flags, the models, and the nearest-hit query over all models. */
module Scenes {
  import opened Wrappers
  import opened RealMath
  import opened Basic
  import opened Models
  import opened Lights
  import opened SceneFiles

  class Scene {
    var lights: seq<Light>
    /** One enable flag per light, in the same order. */
    var lightFlag: seq<bool>
    var models: seq<ObjModel>

    /** `Scene()`: nothing loaded yet. */
    constructor ()
      ensures lights == [] && lightFlag == [] && models == []
    {
      lights, lightFlag, models := [], [], [];
    }

    /** Every model has well-formed meshes. */
    predicate ModelsValid()
      reads this, models
    {
      forall i :: 0 <= i < |models| ==> models[i].Valid()
    }

    /** The pairing the loaders keep: one flag per light. Every light is a
        point or a parallel light, since the lighting code reads a base
        light through a cast to `ParallelLight`. */
    predicate LightsValid()
      reads this
    {
      |lightFlag| == |lights| && forall i :: 0 <= i < |lights| ==> !lights[i].BaseLight?
    }

    predicate Valid()
      reads this, models
    {
      ModelsValid() && LightsValid()
    }

    // ----------------------------------------------------------- intersect

    /** Model j's `intersect` in the loop that starts from s0: the state it
        leaves and what it returns. */
    function ModelStep(m: Intrinsics, j: nat, s0: IsectState<ObjModel>): (IsectState<ObjModel>, bool)
      reads this, models
      requires ModelsValid() && j < |models|
      decreases j, 1
    {
      models[j].IntersectSpec(m, ModelsUpTo(m, j, s0))
    }

    /** The state after model j and the scene flag it sets. */
    function AfterModel(m: Intrinsics, j: nat, s0: IsectState<ObjModel>): IsectState<ObjModel>
      reads this, models
      requires ModelsValid() && j < |models|
      decreases j, 2
    {
      var (s, b) := ModelStep(m, j, s0);
      if b then s.(intersected := true) else s
    }

    /** The state after the first k models. */
    function ModelsUpTo(m: Intrinsics, k: nat, s0: IsectState<ObjModel>): IsectState<ObjModel>
      reads this, models
      requires ModelsValid() && k <= |models|
      decreases k, 0
    {
      if k == 0 then s0 else AfterModel(m, k - 1, s0)
    }

    /** `Scene::intersect` on the state: the final state and its flag. */
    function IntersectSpec(m: Intrinsics, s0: IsectState<ObjModel>): (IsectState<ObjModel>, bool)
      reads this, models
      requires ModelsValid()
    {
      var s := ModelsUpTo(m, |models|, s0);
      (s, s.intersected)
    }

    /** One model step keeps the ray and the colour modifier, never raises
        the world best, sets the scene flag when the model returns true, and
        changes the world channel only when the best strictly decreases, to
        this model's hit: on an equal distance the owner found earlier is
        kept. */
    lemma StepWorld(m: Intrinsics, j: nat, s0: IsectState<ObjModel>)
      requires ModelsValid() && j < |models|
      ensures var s := ModelsUpTo(m, j, s0);
        var s1 := ModelsUpTo(m, j + 1, s0);
        s1.ray == s.ray && s1.colorModifier == s.colorModifier && s1.t <= s.t &&
        (s1.intersected <==> s.intersected || ModelStep(m, j, s0).1) &&
        (SameWorld(s, s1) || (s1.t < s.t && s1.pModel == Some(models[j])))
    {
      var s := ModelsUpTo(m, j, s0);
      models[j].IntersectWorld(m, s);
      assert ModelStep(m, j, s0) == models[j].IntersectSpec(m, s);
      assert ModelsUpTo(m, j + 1, s0) == AfterModel(m, j, s0);
    }

    /** `intersect` returns true exactly when the flag was already set or
        some model, called in list order, returned true. */
    lemma {:induction false} IntersectFlag(m: Intrinsics, k: nat, s0: IsectState<ObjModel>)
      requires ModelsValid() && k <= |models|
      ensures ModelsUpTo(m, k, s0).intersected <==>
        s0.intersected || exists j :: 0 <= j < k && ModelStep(m, j, s0).1
    {
      if k > 0 {
        IntersectFlag(m, k - 1, s0);
        StepWorld(m, k - 1, s0);
        if ModelStep(m, k - 1, s0).1 {
          assert exists j :: 0 <= j < k && ModelStep(m, j, s0).1;
        }
      }
    }

    /** Over the whole loop the ray and colour modifier are kept and the
        world best never increases; the world channel is either untouched or
        holds a strictly nearer hit owned by one of the models. */
    lemma {:induction false} IntersectWorld(m: Intrinsics, k: nat, s0: IsectState<ObjModel>)
      requires ModelsValid() && k <= |models|
      ensures var s := ModelsUpTo(m, k, s0);
        s.ray == s0.ray && s.colorModifier == s0.colorModifier && s.t <= s0.t &&
        (SameWorld(s0, s) || (s.t < s0.t && exists j :: 0 <= j < k && s.pModel == Some(models[j])))
    {
      if k > 0 {
        IntersectWorld(m, k - 1, s0);
        StepWorld(m, k - 1, s0);
      }
    }

    /** The owner after the query is the one on entry or one of the models. */
    lemma IntersectOwner(m: Intrinsics, s0: IsectState<ObjModel>)
      requires ModelsValid()
      ensures var s := IntersectSpec(m, s0).0;
        s.pModel == s0.pModel || (s.pModel.Some? && s.pModel.value in models)
    {
      IntersectWorld(m, |models|, s0);
    }

    /** `Scene::intersect`. */
    method Intersect(m: Intrinsics, isect: Intersection<ObjModel>) returns (hit: bool)
      requires ModelsValid()
      modifies isect
      ensures (isect.State(), hit) == IntersectSpec(m, old(isect.State()))
    {
      ghost var s0 := isect.State();
      var size := |models|;
      var i := 0;
      while i < size
        invariant 0 <= i <= size
        invariant isect.State() == ModelsUpTo(m, i, s0)
      {
        RunModel(m, i, s0, isect);
        i := i + 1;
      }
      hit := isect.intersected;
    }

    /** One iteration of the loop: model i, then the scene flag. */
    method RunModel(m: Intrinsics, i: nat, ghost s0: IsectState<ObjModel>, isect: Intersection<ObjModel>)
      requires ModelsValid() && i < |models| && isect.State() == ModelsUpTo(m, i, s0)
      modifies isect
      ensures isect.State() == ModelsUpTo(m, i + 1, s0)
    {
      var b := models[i].Intersect(m, isect);
      assert (isect.State(), b) == ModelStep(m, i, s0);
      if b {
        isect.intersected := true;
      }
      assert isect.State() == AfterModel(m, i, s0);
    }

    // ------------------------------------------------------------- loaders

    /** The lights loop of `loadScene` and `loadSceneExceptModels`: each
        entry is read by `loadLight` and pushed with a flag set to true.
        Every entry must be of a known light type, since `loadLight` has no
        value to return for any other. */
    method LoadLights(m: Intrinsics, lightArray: seq<Json>)
      requires Loadable(m, lightArray)
      modifies this
      ensures lights == old(lights) + LoadedLights(m, lightArray)
      ensures lightFlag == old(lightFlag) + seq(|lightArray|, _ => true)
      ensures models == old(models)
      ensures old(LightsValid()) ==> LightsValid()
    {
      ghost var loaded := LoadedLights(m, lightArray);
      for i := 0 to |lightArray|
        invariant lights == old(lights) + loaded[..i]
        invariant lightFlag == old(lightFlag) + seq(i, _ => true)
        invariant models == old(models)
      {
        var light := LoadLight(m, ToObject(lightArray[i])).value;
        assert light == loaded[i];
        lights := lights + [light];
        lightFlag := lightFlag + [true];
        assert loaded[..i + 1] == loaded[..i] + [loaded[i]];
      }
      assert loaded[..|lightArray|] == loaded;
    }

    /** The models loop of `loadScene` and `loadModels`: each loaded model is
        appended; nothing is cleared first, so loading twice lists every
        model twice. */
    method LoadModels(loaded: seq<ObjModel>)
      modifies this
      ensures models == old(models) + loaded
      ensures lights == old(lights) && lightFlag == old(lightFlag)
    {
      for i := 0 to |loaded|
        invariant models == old(models) + loaded[..i]
        invariant lights == old(lights) && lightFlag == old(lightFlag)
      {
        assert loaded[..i + 1] == loaded[..i] + [loaded[i]];
        models := models + [loaded[i]];
      }
      assert loaded[..|loaded|] == loaded;
    }
  }

  /** Every entry of the array is of a known light type. */
  predicate Loadable(m: Intrinsics, lightArray: seq<Json>)
  {
    forall i :: 0 <= i < |lightArray| ==> LoadLight(m, ToObject(lightArray[i])).Some?
  }

  /** The lights a well-formed light array loads as: one per entry, and
      none of them a base light. */
  function LoadedLights(m: Intrinsics, lightArray: seq<Json>): (ls: seq<Light>)
    requires Loadable(m, lightArray)
    ensures |ls| == |lightArray|
    ensures forall i :: 0 <= i < |ls| ==> ls[i] == LoadLight(m, ToObject(lightArray[i])).value
    ensures forall i :: 0 <= i < |ls| ==> !ls[i].BaseLight?
  {
    seq(|lightArray|, i requires 0 <= i < |lightArray| => LoadLight(m, ToObject(lightArray[i])).value)
  }
}
