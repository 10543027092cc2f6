/**
 * The two prediction endpoints of the web service, `/predict` and
 * `/predict/ensemble` (yolov8/api/main.py:375-501): parameter and file
 * checks before anything is written, then save, load the model and infer
 * per image, combine, and delete every recorded temporary file at the end
 * whatever happened in between.
 */
module Api {
  import opened Wrappers
  import opened Ensemble
  import opened Models
  import opened Uploads
  import Labels

  /** What the classifier of the service reads: the bytes of a saved upload. */
  type Image = seq<bv8>

  datatype BadRequestReason =
    | InvalidFileType(filename: string)
    | TooManyFiles
    | InvalidCorrectedClass(given: string)

  /** What raised inside the handler's `try`, reported as HTTP 500: opening
      the temporary file, writing it, `load_model()` (no model file, or the
      model could not be built from it), inference, or the fallback copy. */
  datatype ServerCause = OpenFailed | WriteFailed | ModelMissing | InferenceFailed | CopyFailed

  datatype ApiError =
    | Unprocessable                          // 422: a required field missing, or a query parameter out of its declared range or pattern
    | BadRequest(reason: BadRequestReason)   // 400
    | ServerError(cause: ServerCause)        // 500

  /** The `conf_threshold` query parameter is declared with ge=0.0, le=1.0. */
  predicate ThresholdInRange(threshold: real) {
    0.0 <= threshold <= 1.0
  }

  /** The `method` query parameter is declared with the pattern ^(mean|max|vote)$. */
  predicate StrategyAccepted(strategy: string) {
    strategy == "mean" || strategy == "max" || strategy == "vote"
  }

  const MaxFiles: nat := 10

  // ------------------------------------------------------------------
  // one image: save, load, infer
  // ------------------------------------------------------------------

  /** The outcome of saving one upload and running the classifier on it,
      given the model `load_model()` yields. */
  function Process(model: Option<Classifier<Image>>, u: Upload): (r: Result<Vector, ServerCause>)
    requires model.Some? ==> WellFormed(model.value)
    ensures r.Success? ==> model.Some? && u.write.Saved? && |r.value| == |model.value.names|
    ensures r == Failure(OpenFailed) <==> u.write.OpenRaised?
    ensures r == Failure(WriteFailed) <==> u.write.WriteRaised?
  {
    if u.write.OpenRaised? then Failure(OpenFailed)
    else if u.write.WriteRaised? then Failure(WriteFailed)
    else if model.None? then Failure(ModelMissing)
    else match model.value.infer(u.content)
      case None => Failure(InferenceFailed)
      case Some(v) => Success(v)
  }

  /** Save `u` into the temporary directory, load the model and infer.
      `path` is the recorded path (absent when saving raised); a file that
      was opened but not written leaves `leaked` behind. */
  method SaveAndInfer(dir: TempDir, slot: ModelSlot<Image>, pathExists: bool, built: Option<Classifier<Image>>, u: Upload)
    returns (r: Result<Vector, ServerCause>, path: Option<TempPath>, ghost leaked: Option<TempPath>)
    requires dir.Valid() && slot.Valid() && (built.Some? ==> WellFormed(built.value))
    requires slot.model.Some? ==> WellFormed(slot.model.value)
    modifies dir, slot
    ensures dir.Valid() && slot.Valid()
    ensures r == Process(Loaded(old(slot.model), pathExists, built), u)
    ensures slot.model == if u.write.Saved? then Loaded(old(slot.model), pathExists, built) else old(slot.model)
    ensures path.Some? <==> u.write.Saved?
    ensures leaked.Some? <==> u.write.WriteRaised?
    ensures path.Some? ==> path.value !in old(dir.files) && old(dir.nextId) <= path.value.id < dir.nextId
    ensures leaked.Some? ==> leaked.value !in old(dir.files) && old(dir.nextId) <= leaked.value.id < dir.nextId
    ensures dir.files == old(dir.files) + Opt(path) + Opt(leaked)
    ensures old(dir.nextId) <= dir.nextId
  {
    path, leaked := dir.Save(u);
    if path.None? {
      r := if u.write.OpenRaised? then Failure(OpenFailed) else Failure(WriteFailed);
      return;
    }
    leaked := None;
    r := LoadAndInfer(slot, pathExists, built, u);
  }

  /** `load_model()` then `model(temp_path)` on an upload that was saved. */
  method LoadAndInfer(slot: ModelSlot<Image>, pathExists: bool, built: Option<Classifier<Image>>, u: Upload)
    returns (r: Result<Vector, ServerCause>)
    requires slot.Valid() && (built.Some? ==> WellFormed(built.value)) && u.write.Saved?
    requires slot.model.Some? ==> WellFormed(slot.model.value)
    modifies slot
    ensures slot.Valid()
    ensures r == Process(Loaded(old(slot.model), pathExists, built), u)
    ensures slot.model == Loaded(old(slot.model), pathExists, built)
  {
    var m := slot.Load(pathExists, built);
    if m.Failure? {
      return Failure(ModelMissing);
    }
    var out := m.value.infer(u.content);
    if out.None? {
      return Failure(InferenceFailed);
    }
    return Success(out.value);
  }

  /** The recorded paths that stay because removing them fails. */
  function Stuck(recorded: set<TempPath>, unlinkOk: TempPath -> bool): set<TempPath> {
    set p | p in recorded && !unlinkOk(p)
  }

  /** At most one recorded path: it stays exactly when its removal fails. */
  lemma StuckOpt(o: Option<TempPath>, unlinkOk: TempPath -> bool)
    ensures Stuck(Opt(o), unlinkOk) == if o.Some? && !unlinkOk(o.value) then {o.value} else {}
  {
  }

  /** The elements of a list with one more element. */
  lemma SetOfSnoc<T>(xs: seq<T>, x: T)
    ensures (set p | p in xs + [x]) == (set p | p in xs) + {x}
  {
  }

  /** The `finally` loop: every recorded path is cleaned up. `cleanup_file`
      never raises, so the loop always completes, but a path whose removal
      fails (`unlinkOk` false for it) stays. */
  method CleanupAll(dir: TempDir, paths: seq<TempPath>, unlinkOk: TempPath -> bool)
    requires dir.Valid()
    modifies dir
    ensures dir.Valid()
    ensures dir.files == old(dir.files) - set p | p in paths && unlinkOk(p)
    ensures dir.nextId == old(dir.nextId)
  {
    for k := 0 to |paths|
      invariant dir.Valid() && dir.nextId == old(dir.nextId)
      invariant dir.files == old(dir.files) - set p | p in paths[..k] && unlinkOk(p)
    {
      dir.Cleanup(paths[k], unlinkOk(paths[k]));
      assert paths[..k + 1] == paths[..k] + [paths[k]];
    }
    assert paths[..|paths|] == paths;
  }

  // ------------------------------------------------------------------
  // /predict
  // ------------------------------------------------------------------

  datatype SingleResponse = SingleResponse(prediction: Decision, isConfident: bool)

  /** What `/predict` answers, given the model `load_model()` yields. */
  function PredictSingleOutcome(model: Option<Classifier<Image>>, u: Upload, threshold: real): (r: Result<SingleResponse, ApiError>)
    requires model.Some? ==> WellFormed(model.value)
    ensures r.Success? ==> ThresholdInRange(threshold) && ValidateImage(u.filename) && model.Some?
    ensures r.Success? ==> (r.value.isConfident <==> r.value.prediction.confidence >= threshold)
  {
    if !ThresholdInRange(threshold) then Failure(Unprocessable)
    else if !ValidateImage(u.filename) then Failure(BadRequest(InvalidFileType(u.filename)))
    else SingleOutcome(model, u, threshold)
  }

  /** What `/predict` answers once the request passed its checks. */
  function SingleOutcome(model: Option<Classifier<Image>>, u: Upload, threshold: real): (r: Result<SingleResponse, ApiError>)
    requires model.Some? ==> WellFormed(model.value)
    ensures r.Failure? ==> r.error.ServerError?
    ensures r.Success? ==> model.Some? && (r.value.isConfident <==> r.value.prediction.confidence >= threshold)
  {
    Respond(model, Process(model, u), threshold)
  }

  /** The answer for the outcome of one image: a raise is a 500, a vector
      is decided and compared with the threshold. */
  function Respond(model: Option<Classifier<Image>>, out: Result<Vector, ServerCause>, threshold: real)
    : (r: Result<SingleResponse, ApiError>)
    requires model.Some? ==> WellFormed(model.value)
    requires out.Success? ==> model.Some? && |out.value| == |model.value.names|
  {
    match out
    case Failure(c) => Failure(ServerError(c))
    case Success(v) =>
      var d := Decide(model.value.names, v);
      Success(SingleResponse(d, IsConfident(d.confidence, threshold)))
  }

  /** `predict_single`: the file type is checked before anything is saved;
      the saved file is removed in `finally` whether inference succeeded or
      not. A file opened but not written is never recorded and stays
      (`leaked`); the recorded file stays only when its removal fails. */
  method PredictSingle(dir: TempDir, slot: ModelSlot<Image>, pathExists: bool, built: Option<Classifier<Image>>,
                       unlinkOk: TempPath -> bool, u: Upload, threshold: real)
    returns (r: Result<SingleResponse, ApiError>, ghost leaked: Option<TempPath>, ghost recorded: Option<TempPath>)
    requires dir.Valid() && slot.Valid() && (built.Some? ==> WellFormed(built.value))
    requires slot.model.Some? ==> WellFormed(slot.model.value)
    modifies dir, slot
    ensures dir.Valid() && slot.Valid()
    ensures r == PredictSingleOutcome(Loaded(old(slot.model), pathExists, built), u, threshold)
    ensures ThresholdInRange(threshold) && ValidateImage(u.filename) ==>
              slot.model == if u.write.Saved? then Loaded(old(slot.model), pathExists, built) else old(slot.model)
    ensures r.Failure? && !r.error.ServerError? ==> unchanged(dir) && unchanged(slot)
    ensures leaked.Some? <==> r == Failure(ServerError(WriteFailed))
    ensures recorded.Some? ==> ThresholdInRange(threshold) && ValidateImage(u.filename) && u.write.Saved?
    ensures leaked.Some? ==> leaked.value !in old(dir.files)
    ensures recorded.Some? ==> recorded.value !in old(dir.files)
    ensures dir.files == old(dir.files) + Opt(leaked) + Stuck(Opt(recorded), unlinkOk)
  {
    if !ThresholdInRange(threshold) {
      return Failure(Unprocessable), None, None;
    }
    if !ValidateImage(u.filename) {
      return Failure(BadRequest(InvalidFileType(u.filename))), None, None;
    }
    r, leaked, recorded := RunSingle(dir, slot, pathExists, built, unlinkOk, u, threshold);
  }

  /** `predict_single` once the request passed its checks. */
  method RunSingle(dir: TempDir, slot: ModelSlot<Image>, pathExists: bool, built: Option<Classifier<Image>>,
                   unlinkOk: TempPath -> bool, u: Upload, threshold: real)
    returns (r: Result<SingleResponse, ApiError>, ghost leaked: Option<TempPath>, ghost recorded: Option<TempPath>)
    requires dir.Valid() && slot.Valid() && (built.Some? ==> WellFormed(built.value))
    requires slot.model.Some? ==> WellFormed(slot.model.value)
    modifies dir, slot
    ensures dir.Valid() && slot.Valid()
    ensures r == SingleOutcome(Loaded(old(slot.model), pathExists, built), u, threshold)
    ensures slot.model == if u.write.Saved? then Loaded(old(slot.model), pathExists, built) else old(slot.model)
    ensures leaked.Some? <==> r == Failure(ServerError(WriteFailed))
    ensures recorded.Some? <==> u.write.Saved?
    ensures leaked.Some? ==> leaked.value !in old(dir.files)
    ensures recorded.Some? ==> recorded.value !in old(dir.files)
    ensures dir.files == old(dir.files) + Opt(leaked) + Stuck(Opt(recorded), unlinkOk)
  {
    var out, path;
    out, path, leaked := SaveAndInfer(dir, slot, pathExists, built, u);
    recorded := path;
    r := Respond(slot.model, out, threshold);
    if path.Some? {
      dir.Cleanup(path.value, unlinkOk(path.value));
    }
  }

  // ------------------------------------------------------------------
  // /predict/ensemble
  // ------------------------------------------------------------------

  datatype Individual = Individual(filename: string, prediction: string, predictionKr: string, confidence: real)

  datatype EnsembleResponse = EnsembleResponse(
    strategy: string,
    numImages: nat,
    finalPrediction: Decision,
    individual: seq<Individual>,
    isConfident: bool)

  /** The per-image entry: that image's own top-1 class and probability. */
  function IndividualOf(names: seq<string>, filename: string, v: Vector): (e: Individual)
    requires |v| == |names| > 0
    ensures e.prediction == names[ArgMax(v)] && e.confidence == v[ArgMax(v)]
    ensures forall j :: 0 <= j < |v| ==> v[j] <= e.confidence
    ensures e.predictionKr == Labels.KoreanName(e.prediction) && e.filename == filename
  {
    var k := ArgMax(v);
    Individual(filename, names[k], Labels.KoreanName(names[k]), v[k])
  }

  /** Position of the first upload with a rejected file type, or |us|. */
  function FirstInvalid(us: seq<Upload>, from: nat): (k: nat)
    requires from <= |us|
    ensures from <= k <= |us|
    ensures forall j :: from <= j < k ==> ValidateImage(us[j].filename)
    ensures k < |us| ==> !ValidateImage(us[k].filename)
    decreases |us| - from
  {
    if from == |us| then |us|
    else if !ValidateImage(us[from].filename) then from
    else FirstInvalid(us, from + 1)
  }

  /** `FirstInvalid` is the first rejected position at or after `from`. */
  lemma {:induction false} FirstInvalidAt(us: seq<Upload>, from: nat, k: nat)
    requires from <= k <= |us|
    requires forall j :: from <= j < k ==> ValidateImage(us[j].filename)
    requires k < |us| ==> !ValidateImage(us[k].filename)
    ensures FirstInvalid(us, from) == k
    decreases k - from
  {
    if from < k {
      FirstInvalidAt(us, from + 1, k);
    }
  }

  /** Processing the first `m` uploads in order: their vectors, or the
      failure of the first one that fails. */
  function ProcessAll(model: Option<Classifier<Image>>, us: seq<Upload>, m: nat): (r: Result<seq<Vector>, ServerCause>)
    requires m <= |us|
    requires model.Some? ==> WellFormed(model.value)
    ensures r.Success? ==> |r.value| == m && (m > 0 ==> model.Some?)
    ensures r.Success? ==> forall i :: 0 <= i < m ==> Process(model, us[i]) == Success(r.value[i])
  {
    if m == 0 then Success([])
    else match ProcessAll(model, us, m - 1)
      case Failure(c) => Failure(c)
      case Success(vs) =>
        match Process(model, us[m - 1])
        case Failure(c) => Failure(c)
        case Success(v) => Success(vs + [v])
  }

  /** What `/predict/ensemble` rejects before saving anything: the declared
      parameters (422; `files` is a required field, so no file at all is
      rejected there and the handler's own 400 for fewer than one file is
      never reached), then too many files, then the first file with a
      rejected type (400). */
  function Rejection(us: seq<Upload>, strategy: string, threshold: real): (e: Option<ApiError>)
    ensures e.None? <==> (StrategyAccepted(strategy) && ThresholdInRange(threshold)
      && 1 <= |us| <= MaxFiles && forall i :: 0 <= i < |us| ==> ValidateImage(us[i].filename))
    ensures |us| == 0 ==> e == Some(Unprocessable)
    ensures e.Some? ==> !e.value.ServerError?
  {
    if !StrategyAccepted(strategy) || !ThresholdInRange(threshold) || |us| < 1 then Some(Unprocessable)
    else if |us| > MaxFiles then Some(BadRequest(TooManyFiles))
    else if FirstInvalid(us, 0) < |us| then Some(BadRequest(InvalidFileType(us[FirstInvalid(us, 0)].filename)))
    else None
  }

  /** What `/predict/ensemble` answers, given the model `load_model()` yields. */
  function PredictEnsembleOutcome(model: Option<Classifier<Image>>, us: seq<Upload>, strategy: string, threshold: real)
    : (r: Result<EnsembleResponse, ApiError>)
    requires model.Some? ==> WellFormed(model.value)
  {
    if Rejection(us, strategy, threshold).Some? then Failure(Rejection(us, strategy, threshold).value)
    else AcceptedOutcome(model, us, strategy, threshold)
  }

  /** What `/predict/ensemble` answers once the request passed its checks:
      the first processing failure as a 500, else the combined response. */
  function AcceptedOutcome(model: Option<Classifier<Image>>, us: seq<Upload>, strategy: string, threshold: real)
    : (r: Result<EnsembleResponse, ApiError>)
    requires model.Some? ==> WellFormed(model.value)
    requires |us| > 0
    ensures r.Failure? ==> r.error.ServerError?
  {
    match ProcessAll(model, us, |us|)
    case Failure(c) => Failure(ServerError(c))
    case Success(vs) => Success(Combine(model.value.names, us, vs, strategy, threshold))
  }

  /** The body of a successful ensemble response: the combined decision,
      one entry per image in upload order, and the confidence flag. */
  function Combine(names: seq<string>, us: seq<Upload>, vs: seq<Vector>, strategy: string, threshold: real)
    : (e: EnsembleResponse)
    requires |names| > 0 && |vs| == |us| > 0 && Rectangular(vs, |names|)
    ensures e.numImages == |us| == |e.individual| && e.strategy == strategy
    ensures e.finalPrediction == Decide(names, Aggregate(vs, |names|, strategy))
    ensures var a := Aggregate(vs, |names|, strategy); var d := e.finalPrediction;
      d.index < |names| && d.className == names[d.index] && d.confidence == a[d.index]
      && (forall j :: 0 <= j < |names| ==> a[j] <= d.confidence)
      && (forall j :: 0 <= j < d.index ==> a[j] < d.confidence)
    ensures forall i :: 0 <= i < |us| ==> e.individual[i] == IndividualOf(names, us[i].filename, vs[i])
    ensures forall i, j :: 0 <= i < |us| && 0 <= j < |names| ==> vs[i][j] <= e.individual[i].confidence
    ensures e.isConfident <==> e.finalPrediction.confidence >= threshold
  {
    DecideSpec(names, Aggregate(vs, |names|, strategy));
    var d := Decide(names, Aggregate(vs, |names|, strategy));
    EnsembleResponse(strategy, |us|, d, Individuals(names, us, vs), IsConfident(d.confidence, threshold))
  }

  /** The `individual_predictions` list: one entry per image, in upload order. */
  function Individuals(names: seq<string>, us: seq<Upload>, vs: seq<Vector>): (es: seq<Individual>)
    requires |names| > 0 && |vs| == |us| && Rectangular(vs, |names|)
    ensures |es| == |us|
    ensures forall i :: 0 <= i < |us| ==> es[i] == IndividualOf(names, us[i].filename, vs[i])
  {
    seq(|us|, i requires 0 <= i < |us| => IndividualOf(names, us[i].filename, vs[i]))
  }

  /** Once one of the first m uploads fails, processing more of them keeps
      that first failure. */
  lemma {:induction false} ProcessAllFailurePersists(model: Option<Classifier<Image>>, us: seq<Upload>, m: nat, n: nat)
    requires m <= n <= |us|
    requires model.Some? ==> WellFormed(model.value)
    requires ProcessAll(model, us, m).Failure?
    ensures ProcessAll(model, us, n) == ProcessAll(model, us, m)
    decreases n - m
  {
    if n > m {
      ProcessAllFailurePersists(model, us, m, n - 1);
    }
  }

  /** One turn of the loop of `predict_ensemble`: save and classify `u`,
      and record its path, when it was saved, after the earlier ones. */
  method InferNext(dir: TempDir, slot: ModelSlot<Image>, pathExists: bool, built: Option<Classifier<Image>>, u: Upload,
                   paths: seq<TempPath>, ghost before: set<TempPath>, ghost firstId: nat)
    returns (r: Result<Vector, ServerCause>, paths': seq<TempPath>, ghost leaked: Option<TempPath>)
    requires dir.Valid() && slot.Valid() && (built.Some? ==> WellFormed(built.value))
    requires slot.model.Some? ==> WellFormed(slot.model.value)
    requires firstId <= dir.nextId && forall p :: p in paths ==> firstId <= p.id < dir.nextId
    requires dir.files == before + (set p | p in paths)
    modifies dir, slot
    ensures dir.Valid() && slot.Valid()
    ensures r == Process(Loaded(old(slot.model), pathExists, built), u)
    ensures slot.model == if u.write.Saved? then Loaded(old(slot.model), pathExists, built) else old(slot.model)
    ensures |paths| <= |paths'| <= |paths| + 1 && paths'[..|paths|] == paths
    ensures firstId <= dir.nextId && forall p :: p in paths' ==> firstId <= p.id < dir.nextId
    ensures leaked.Some? <==> u.write.WriteRaised?
    ensures leaked.Some? ==> firstId <= leaked.value.id && leaked.value !in paths'
    ensures dir.files == before + (set p | p in paths') + Opt(leaked)
  {
    var path;
    r, path, leaked := SaveAndInfer(dir, slot, pathExists, built, u);
    paths' := paths;
    if path.Some? {
      SetOfSnoc(paths, path.value);
      paths' := paths + [path.value];
    }
  }

  /** The loop of `predict_ensemble`: save and classify each upload in
      order, recording each saved path, and stop at the first that raises. */
  method InferAll(dir: TempDir, slot: ModelSlot<Image>, pathExists: bool, built: Option<Classifier<Image>>, us: seq<Upload>)
    returns (r: Result<seq<Vector>, ServerCause>, paths: seq<TempPath>, ghost leaked: Option<TempPath>)
    requires dir.Valid() && slot.Valid() && (built.Some? ==> WellFormed(built.value))
    requires slot.model.Some? ==> WellFormed(slot.model.value)
    modifies dir, slot
    ensures dir.Valid() && slot.Valid()
    ensures r == ProcessAll(Loaded(old(slot.model), pathExists, built), us, |us|)
    ensures slot.model == old(slot.model) || slot.model == Loaded(old(slot.model), pathExists, built)
    ensures r.Success? && |us| > 0 ==> slot.model == Loaded(old(slot.model), pathExists, built)
    ensures slot.model.Some? ==> WellFormed(slot.model.value)
    ensures leaked.Some? <==> r == Failure(WriteFailed)
    ensures forall p :: p in paths ==> p !in old(dir.files)
    ensures leaked.Some? ==> leaked.value !in old(dir.files) && leaked.value !in paths
    ensures dir.files == old(dir.files) + (set p | p in paths) + Opt(leaked)
    ensures |paths| <= |us|
  {
    ghost var model := Loaded(old(slot.model), pathExists, built);
    paths := [];
    var probs: seq<Vector> := [];
    leaked := None;
    var i := 0;
    while i < |us|
      invariant 0 <= i <= |us| && |paths| <= i
      invariant dir.Valid() && slot.Valid()
      invariant slot.model == old(slot.model) || slot.model == model
      invariant i > 0 ==> slot.model == model
      invariant slot.model.Some? ==> WellFormed(slot.model.value)
      invariant ProcessAll(model, us, i) == Success(probs)
      invariant forall p :: p in paths ==> old(dir.nextId) <= p.id < dir.nextId
      invariant old(dir.nextId) <= dir.nextId
      invariant dir.files == old(dir.files) + (set p | p in paths)
    {
      var out;
      ghost var lk;
      out, paths, lk := InferNext(dir, slot, pathExists, built, us[i], paths, old(dir.files), old(dir.nextId));
      if out.Failure? {
        leaked := lk;
        ProcessAllFailurePersists(model, us, i + 1, |us|);
        return Failure(out.error), paths, leaked;
      }
      probs := probs + [out.value];
      i := i + 1;
    }
    r := Success(probs);
  }

  /** The checks at the head of `predict_ensemble`, the file types one
      upload after the other. */
  method CheckRequest(us: seq<Upload>, strategy: string, threshold: real) returns (e: Option<ApiError>)
    ensures e == Rejection(us, strategy, threshold)
  {
    if !StrategyAccepted(strategy) || !ThresholdInRange(threshold) || |us| < 1 {
      return Some(Unprocessable);
    }
    if |us| > MaxFiles {
      return Some(BadRequest(TooManyFiles));
    }
    var k := 0;
    while k < |us| && ValidateImage(us[k].filename)
      invariant 0 <= k <= |us| && FirstInvalid(us, k) == FirstInvalid(us, 0)
    {
      k := k + 1;
    }
    if k < |us| {
      return Some(BadRequest(InvalidFileType(us[k].filename)));
    }
    return None;
  }

  /** The tail of `predict_ensemble` once every image is classified. */
  method CombineAll(names: seq<string>, us: seq<Upload>, vs: seq<Vector>, strategy: string, threshold: real)
    returns (e: EnsembleResponse)
    requires |names| > 0 && |vs| == |us| > 0 && Rectangular(vs, |names|)
    ensures e == Combine(names, us, vs, strategy, threshold)
  {
    var individual := Individuals(names, us, vs);
    var combined := EnsemblePredictions(names, vs, strategy);
    var d := combined.value;
    e := EnsembleResponse(strategy, |us|, d, individual, d.confidence >= threshold);
  }

  /** `predict_ensemble`: parameters, count and every file type are checked
      before anything is saved; then each upload is saved and classified in
      order, stopping at the first that raises; the per-image vectors are
      combined by the requested strategy; every recorded temporary file is
      removed in `finally`, and stays only when its removal fails. */
  method PredictEnsemble(dir: TempDir, slot: ModelSlot<Image>, pathExists: bool, built: Option<Classifier<Image>>,
                         unlinkOk: TempPath -> bool, us: seq<Upload>, strategy: string, threshold: real)
    returns (r: Result<EnsembleResponse, ApiError>, ghost leaked: Option<TempPath>, ghost recorded: seq<TempPath>)
    requires dir.Valid() && slot.Valid() && (built.Some? ==> WellFormed(built.value))
    requires slot.model.Some? ==> WellFormed(slot.model.value)
    modifies dir, slot
    ensures dir.Valid() && slot.Valid()
    ensures r == PredictEnsembleOutcome(Loaded(old(slot.model), pathExists, built), us, strategy, threshold)
    ensures Rejection(us, strategy, threshold).None? ==>
              (slot.model == old(slot.model) || slot.model == Loaded(old(slot.model), pathExists, built)) &&
              (r.Success? ==> slot.model == Loaded(old(slot.model), pathExists, built))
    ensures r.Failure? && !r.error.ServerError? ==> unchanged(dir) && unchanged(slot) && recorded == []
    ensures leaked.Some? <==> r == Failure(ServerError(WriteFailed))
    ensures |recorded| <= |us|
    ensures leaked.Some? ==> leaked.value !in old(dir.files)
    ensures forall p :: p in recorded ==> p !in old(dir.files)
    ensures dir.files == old(dir.files) + Opt(leaked) + Stuck((set p | p in recorded), unlinkOk)
  {
    var rejected := CheckRequest(us, strategy, threshold);
    if rejected.Some? {
      return Failure(rejected.value), None, [];
    }
    r, leaked, recorded := RunEnsemble(dir, slot, pathExists, built, unlinkOk, us, strategy, threshold);
  }

  /** `predict_ensemble` once the request passed its checks: save and
      classify every upload, combine, and clean up the recorded files. */
  method RunEnsemble(dir: TempDir, slot: ModelSlot<Image>, pathExists: bool, built: Option<Classifier<Image>>,
                     unlinkOk: TempPath -> bool, us: seq<Upload>, strategy: string, threshold: real)
    returns (r: Result<EnsembleResponse, ApiError>, ghost leaked: Option<TempPath>, ghost recorded: seq<TempPath>)
    requires dir.Valid() && slot.Valid() && (built.Some? ==> WellFormed(built.value))
    requires slot.model.Some? ==> WellFormed(slot.model.value)
    requires |us| > 0
    modifies dir, slot
    ensures dir.Valid() && slot.Valid()
    ensures r == AcceptedOutcome(Loaded(old(slot.model), pathExists, built), us, strategy, threshold)
    ensures slot.model == old(slot.model) || slot.model == Loaded(old(slot.model), pathExists, built)
    ensures r.Success? ==> slot.model == Loaded(old(slot.model), pathExists, built)
    ensures leaked.Some? <==> r == Failure(ServerError(WriteFailed))
    ensures |recorded| <= |us|
    ensures leaked.Some? ==> leaked.value !in old(dir.files)
    ensures forall p :: p in recorded ==> p !in old(dir.files)
    ensures dir.files == old(dir.files) + Opt(leaked) + Stuck((set p | p in recorded), unlinkOk)
  {
    ghost var model := Loaded(old(slot.model), pathExists, built);
    var out, paths;
    out, paths, leaked := InferAll(dir, slot, pathExists, built, us);
    recorded := paths;
    if out.Failure? {
      r := Failure(ServerError(out.error));
    } else {
      assert slot.model == model;
      var e := CombineAll(slot.model.value.names, us, out.value, strategy, threshold);
      r := Success(e);
    }
    CleanupAll(dir, paths, unlinkOk);
    CleanupLeavesLeak(old(dir.files), paths, leaked, unlinkOk);
  }

  /** Removing the recorded paths whose removal succeeds, from what was
      there before plus those paths plus the leaked file, leaves what was
      there before, the leaked file and the stuck paths: the recorded paths
      were all new, and the leaked file was never recorded. */
  lemma CleanupLeavesLeak(before: set<TempPath>, paths: seq<TempPath>, leaked: Option<TempPath>, unlinkOk: TempPath -> bool)
    requires forall p :: p in paths ==> p !in before
    requires leaked.Some? ==> leaked.value !in paths
    ensures (before + (set p | p in paths) + Opt(leaked)) - (set p | p in paths && unlinkOk(p))
      == before + Opt(leaked) + Stuck((set p | p in paths), unlinkOk)
  {
  }
}
