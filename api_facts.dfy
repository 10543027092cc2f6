/**
 * Properties of the two prediction endpoints that relate several calls or
 * several endpoints: the ensemble loop reports the first image that fails,
 * and a one-image ensemble combined by mean or max answers what `/predict`
 * answers.
 */
module ApiFacts {
  import opened Wrappers
  import opened Ensemble
  import opened Models
  import opened Uploads
  import opened Api
  import EnsembleFacts

  /** When every image before position k is processed and image k fails,
      processing any longer prefix reports image k's failure. */
  lemma {:induction false} ProcessAllFirstFailure(model: Option<Classifier<Image>>, us: seq<Upload>, k: nat, m: nat)
    requires model.Some? ==> WellFormed(model.value)
    requires k < m <= |us|
    requires forall i :: 0 <= i < k ==> Process(model, us[i]).Success?
    requires Process(model, us[k]).Failure?
    ensures ProcessAll(model, us, m) == Failure(Process(model, us[k]).error)
    decreases m
  {
    if m == k + 1 {
      PrefixSucceeds(model, us, k);
    } else {
      ProcessAllFirstFailure(model, us, k, m - 1);
    }
  }

  /** When every image of a prefix is processed, the prefix succeeds. */
  lemma {:induction false} PrefixSucceeds(model: Option<Classifier<Image>>, us: seq<Upload>, m: nat)
    requires model.Some? ==> WellFormed(model.value)
    requires m <= |us|
    requires forall i :: 0 <= i < m ==> Process(model, us[i]).Success?
    ensures ProcessAll(model, us, m).Success?
    decreases m
  {
    if m > 0 {
      PrefixSucceeds(model, us, m - 1);
    }
  }

  /** The ensemble endpoint answers 500 with the cause of the first image
      that fails, whatever the images after it are. */
  lemma EnsembleReportsFirstFailure(model: Option<Classifier<Image>>, us: seq<Upload>, strategy: string,
                                    threshold: real, k: nat)
    requires model.Some? ==> WellFormed(model.value)
    requires Rejection(us, strategy, threshold).None?
    requires k < |us|
    requires forall i :: 0 <= i < k ==> Process(model, us[i]).Success?
    requires Process(model, us[k]).Failure?
    ensures PredictEnsembleOutcome(model, us, strategy, threshold) == Failure(ServerError(Process(model, us[k]).error))
  {
    ProcessAllFirstFailure(model, us, k, |us|);
  }

  /** When `load_model()` raises (no model file, or a model that cannot be
      built from it), an accepted ensemble request whose first upload is
      saved fails with 500 "model missing". */
  lemma NoModelIsServerError(us: seq<Upload>, strategy: string, threshold: real)
    requires Rejection(us, strategy, threshold).None?
    requires us[0].write.Saved?
    ensures PredictEnsembleOutcome(None, us, strategy, threshold) == Failure(ServerError(ModelMissing))
  {
    EnsembleReportsFirstFailure(None, us, strategy, threshold, 0);
  }

  /** A one-image ensemble combined by mean or max succeeds exactly when
      `/predict` on that image does, with the same class, display names,
      confidence and confidence flag; failures carry the same error. The
      top-5 lists are not compared: the two endpoints rank them with
      different sorts, which may order equal probabilities differently. */
  lemma SingleImageEnsembleIsPredict(model: Option<Classifier<Image>>, u: Upload, strategy: string, threshold: real)
    requires model.Some? ==> WellFormed(model.value)
    requires strategy == "mean" || strategy == "max"
    requires ThresholdInRange(threshold) && ValidateImage(u.filename)
    ensures PredictEnsembleOutcome(model, [u], strategy, threshold).Success?
        <==> PredictSingleOutcome(model, u, threshold).Success?
    ensures PredictSingleOutcome(model, u, threshold).Failure? ==>
      PredictEnsembleOutcome(model, [u], strategy, threshold).error == PredictSingleOutcome(model, u, threshold).error
    ensures PredictSingleOutcome(model, u, threshold).Success? ==>
      var e := PredictEnsembleOutcome(model, [u], strategy, threshold).value;
      var p := PredictSingleOutcome(model, u, threshold).value;
      && e.finalPrediction.index == p.prediction.index
      && e.finalPrediction.className == p.prediction.className
      && e.finalPrediction.classNameKr == p.prediction.classNameKr
      && e.finalPrediction.shortName == p.prediction.shortName
      && e.finalPrediction.confidence == p.prediction.confidence
      && e.isConfident == p.isConfident
  {
    SingletonAccepted(u, strategy, threshold);
    SingletonProcessAll(model, u);
    if Process(model, u).Success? {
      EnsembleFacts.SingleImageMeanOrMax(model.value.names, Process(model, u).value, strategy);
    }
  }

  lemma SingletonAccepted(u: Upload, strategy: string, threshold: real)
    requires strategy == "mean" || strategy == "max"
    requires ThresholdInRange(threshold) && ValidateImage(u.filename)
    ensures Rejection([u], strategy, threshold).None?
  {
    var us := [u];
    assert forall i :: 0 <= i < |us| ==> ValidateImage(us[i].filename);
  }

  lemma SingletonProcessAll(model: Option<Classifier<Image>>, u: Upload)
    requires model.Some? ==> WellFormed(model.value)
    ensures ProcessAll(model, [u], 1) == match Process(model, u)
      case Failure(c) => Failure(c)
      case Success(v) => Success([v])
  {
    var us := [u];
    assert us[0] == u;
    assert ProcessAll(model, us, 0) == Success([]);
    match Process(model, u)
    case Failure(c) =>
    case Success(v) =>
      assert ProcessAll(model, us, 1) == Success([] + [v]);
      assert [] + [v] == [v];
  }
}
