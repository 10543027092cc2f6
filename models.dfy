/**
 * The classifier as the service sees it, and the module-level model slot
 * that `load_model` fills at most once (yolov8/api/main.py:164-178).
 * The YOLO network itself is abstract: a label list and a function from an
 * input (image bytes, or an image path offline) to a probability vector,
 * or to nothing when inference raises.
 */
module Models {
  import opened Wrappers
  import opened Ensemble

  datatype Classifier<!I> = Classifier(names: seq<string>, infer: I -> Option<Vector>)

  /** A trained classifier: at least one class, and every vector it returns
      has one probability per class. */
  ghost predicate WellFormed<I(!new)>(c: Classifier<I>) {
    |c.names| > 0 && forall x :: c.infer(x).Some? ==> |c.infer(x).value| == |c.names|
  }

  /** Why `load_model()` raised: no file at the model path, or the file
      exists but `YOLO(MODEL_PATH)` could not build a model from it. */
  datatype LoadError = ModelNotFound | LoadFailed

  /** The model `load_model()` yields from a slot holding `current`: the
      cached one, else the one built from an existing model path, where
      `built` is None when the construction raises. */
  function Loaded<I>(current: Option<Classifier<I>>, pathExists: bool, built: Option<Classifier<I>>): (m: Option<Classifier<I>>)
    ensures current.Some? ==> m == current
    ensures current.None? ==> (m.Some? <==> pathExists && built.Some?)
    ensures current.None? && m.Some? ==> m == built
  {
    if current.Some? then current else if pathExists then built else None
  }

  /** The global `model`, initially None. `loads` counts the times a model
      was actually constructed. */
  class ModelSlot<I> {
    var model: Option<Classifier<I>>
    ghost var loads: nat

    ghost predicate Valid()
      reads this
    {
      loads <= 1 && (model.Some? <==> loads == 1)
    }

    constructor()
      ensures Valid() && model == None
    {
      model := None;
      loads := 0;
    }

    /** `load_model()`: return the cached model; otherwise, when the model
        path exists, construct the model from it (`built`, None when the
        construction raises), else raise. A raise leaves the slot empty. */
    method Load(pathExists: bool, built: Option<Classifier<I>>) returns (r: Result<Classifier<I>, LoadError>)
      requires Valid()
      modifies this
      ensures Valid()
      ensures old(model).Some? ==> model == old(model) && loads == old(loads) && r == Success(old(model).value)
      ensures old(model).None? && pathExists && built.Some? ==> model == built && loads == 1 && r == Success(built.value)
      ensures old(model).None? && pathExists && built.None? ==> model == None && loads == 0 && r == Failure(LoadFailed)
      ensures old(model).None? && !pathExists ==> model == None && loads == 0 && r == Failure(ModelNotFound)
      ensures model == Loaded(old(model), pathExists, built)
      ensures r.Success? <==> model.Some?
      ensures r.Success? ==> r.value == model.value
    {
      if model.None? {
        if !pathExists {
          return Failure(ModelNotFound);
        }
        if built.None? {
          return Failure(LoadFailed);
        }
        model := built;
        loads := loads + 1;
      }
      r := Success(model.value);
    }
  }

  /** Once a model is in the slot, every later call returns that same model,
      whatever the path and the candidate model are then. */
  method LoadIsMemoised<I>(slot: ModelSlot<I>, e1: bool, b1: Option<Classifier<I>>, e2: bool, b2: Option<Classifier<I>>)
    returns (r1: Result<Classifier<I>, LoadError>, r2: Result<Classifier<I>, LoadError>)
    requires slot.Valid()
    modifies slot
    ensures slot.Valid() && slot.loads <= 1
    ensures r1.Success? ==> r2 == r1 && slot.model == Some(r1.value)
    ensures r1.Failure? ==> old(slot.model).None? && (!e1 || b1.None?)
    ensures r1.Failure? && r1.error == ModelNotFound ==> !e1
  {
    r1 := slot.Load(e1, b1);
    r2 := slot.Load(e2, b2);
  }
}
