/**
 * The offline inference script (yolov8/predict.py:70-242): several photos
 * of one site combined into one decision, and a list of photos classified
 * in consecutive batches. The classifier reads an image path; inference
 * that raises ends the whole call.
 */
module Predict {
  import opened Wrappers
  import opened Ensemble
  import opened Models

  datatype PredictError =
    | NoImages          // `ensemble_predict` on an empty list
    | InferenceFailed   // the classifier raised
    | ZeroBatchSize     // `range` with step 0

  /** The vectors of the first m paths, or None when the classifier raises
      on one of them. */
  function InferEach(model: Classifier<string>, paths: seq<string>, m: nat): (r: Option<seq<Vector>>)
    requires WellFormed(model) && m <= |paths|
    ensures r.Some? ==> |r.value| == m && Rectangular(r.value, |model.names|)
  {
    if m == 0 then Some([])
    else match InferEach(model, paths, m - 1)
      case None => None
      case Some(vs) =>
        match model.infer(paths[m - 1])
        case None => None
        case Some(v) => Some(vs + [v])
  }

  /** The run succeeds exactly when the classifier answers for each of the
      first m paths, and vector i is its answer for path i. */
  lemma {:induction false} InferEachSpec(model: Classifier<string>, paths: seq<string>, m: nat)
    requires WellFormed(model) && m <= |paths|
    ensures InferEach(model, paths, m).Some? <==> forall i :: 0 <= i < m ==> model.infer(paths[i]).Some?
    ensures InferEach(model, paths, m).Some? ==> forall i :: 0 <= i < m ==>
      model.infer(paths[i]) == Some(InferEach(model, paths, m).value[i])
  {
    if m > 0 {
      InferEachSpec(model, paths, m - 1);
    }
  }

  // ------------------------------------------------------------------
  // ensemble_predict
  // ------------------------------------------------------------------

  datatype IndividualPrediction = IndividualPrediction(imagePath: string, prediction: string, confidence: real)

  datatype EnsembleResult = EnsembleResult(
    strategy: string,
    numImages: nat,
    imagePaths: seq<string>,
    finalPrediction: Decision,
    individual: seq<IndividualPrediction>,
    isConfident: bool)

  /** One image's own top-1 class and probability. */
  function IndividualOf(names: seq<string>, path: string, v: Vector): (e: IndividualPrediction)
    requires |v| == |names| > 0
    ensures e.imagePath == path && e.prediction == names[ArgMax(v)] && e.confidence == v[ArgMax(v)]
    ensures forall j :: 0 <= j < |v| ==> v[j] <= e.confidence
  {
    IndividualPrediction(path, names[ArgMax(v)], v[ArgMax(v)])
  }

  /** What `ensemble_predict` returns or raises. */
  function EnsemblePredictOutcome(model: Classifier<string>, paths: seq<string>, strategy: string, threshold: real)
    : (r: Result<EnsembleResult, PredictError>)
    requires WellFormed(model)
    ensures r == Failure(NoImages) <==> paths == []
    ensures r.Failure? <==> (paths == [] || exists i :: 0 <= i < |paths| && model.infer(paths[i]).None?)
    ensures r.Success? ==> r.value.numImages == |paths| == |r.value.individual| && r.value.imagePaths == paths
    ensures r.Success? ==> forall i :: 0 <= i < |paths| ==>
      r.value.individual[i] == IndividualOf(model.names, paths[i], model.infer(paths[i]).value)
    ensures r.Success? ==> (r.value.isConfident <==> r.value.finalPrediction.confidence >= threshold)
  {
    InferEachSpec(model, paths, |paths|);
    if paths == [] then Failure(NoImages)
    else match InferEach(model, paths, |paths|)
      case None => Failure(InferenceFailed)
      case Some(vs) =>
        var d := Decide(model.names, Aggregate(vs, |model.names|, strategy));
        Success(EnsembleResult(strategy, |paths|, paths, d, Individuals(model.names, paths, vs), d.confidence >= threshold))
  }

  /** The final decision of a successful `ensemble_predict`: every path was
      answered, and the final class is the first class of highest value in
      the strategy's aggregate of those answers, with that value as its
      confidence. */
  lemma EnsemblePredictDecision(model: Classifier<string>, paths: seq<string>, strategy: string, threshold: real)
    requires WellFormed(model)
    requires EnsemblePredictOutcome(model, paths, strategy, threshold).Success?
    ensures InferEach(model, paths, |paths|).Some? && paths != []
    ensures forall i :: 0 <= i < |paths| ==> model.infer(paths[i]) == Some(InferEach(model, paths, |paths|).value[i])
    ensures var a := Aggregate(InferEach(model, paths, |paths|).value, |model.names|, strategy);
            var d := EnsemblePredictOutcome(model, paths, strategy, threshold).value.finalPrediction;
            && d == Decide(model.names, a)
            && d.index < |a| && d.className == model.names[d.index] && d.confidence == a[d.index]
            && (forall j :: 0 <= j < |a| ==> a[j] <= d.confidence)
            && (forall j :: 0 <= j < d.index ==> a[j] < d.confidence)
  {
    InferEachSpec(model, paths, |paths|);
    DecideSpec(model.names, Aggregate(InferEach(model, paths, |paths|).value, |model.names|, strategy));
  }

  /** The `individual_predictions` list. */
  function Individuals(names: seq<string>, paths: seq<string>, vs: seq<Vector>): (es: seq<IndividualPrediction>)
    requires |names| > 0 && |vs| == |paths| && Rectangular(vs, |names|)
    ensures |es| == |paths|
    ensures forall i :: 0 <= i < |paths| ==> es[i] == IndividualOf(names, paths[i], vs[i])
  {
    seq(|paths|, i requires 0 <= i < |paths| => IndividualOf(names, paths[i], vs[i]))
  }

  /** `ensemble_predict`: classify every path in order, collecting the
      vectors and the per-image entries, then combine. */
  method EnsemblePredict(model: Classifier<string>, paths: seq<string>, strategy: string, threshold: real)
    returns (r: Result<EnsembleResult, PredictError>)
    requires WellFormed(model)
    ensures r == EnsemblePredictOutcome(model, paths, strategy, threshold)
  {
    if paths == [] {
      return Failure(NoImages);
    }
    var probs, individual := CollectPredictions(model, paths);
    if probs.None? {
      return Failure(InferenceFailed);
    }
    var combined := EnsemblePredictions(model.names, probs.value, strategy);
    var d := combined.value;
    r := Success(EnsembleResult(strategy, |paths|, paths, d, individual, d.confidence >= threshold));
  }

  lemma IndividualsSnoc(model: Classifier<string>, paths: seq<string>, i: nat, vs: seq<Vector>, v: Vector)
    requires WellFormed(model) && i < |paths| && InferEach(model, paths, i) == Some(vs)
    requires model.infer(paths[i]) == Some(v)
    ensures InferEach(model, paths, i + 1) == Some(vs + [v])
    ensures Individuals(model.names, paths[..i + 1], vs + [v]) ==
            Individuals(model.names, paths[..i], vs) + [IndividualOf(model.names, paths[i], v)]
  {
    var a := Individuals(model.names, paths[..i + 1], vs + [v]);
    var b := Individuals(model.names, paths[..i], vs) + [IndividualOf(model.names, paths[i], v)];
    forall k | 0 <= k < |a| ensures a[k] == b[k] {
      if k < i {
        assert paths[..i + 1][k] == paths[..i][k];
        assert (vs + [v])[k] == vs[k];
      }
    }
  }

  /** The loop of `ensemble_predict`. */
  method CollectPredictions(model: Classifier<string>, paths: seq<string>)
    returns (probs: Option<seq<Vector>>, individual: seq<IndividualPrediction>)
    requires WellFormed(model)
    ensures probs == InferEach(model, paths, |paths|)
    ensures probs.Some? ==> individual == Individuals(model.names, paths, probs.value)
  {
    var vs: seq<Vector> := [];
    individual := [];
    for i := 0 to |paths|
      invariant InferEach(model, paths, i) == Some(vs)
      invariant individual == Individuals(model.names, paths[..i], vs)
    {
      var out := model.infer(paths[i]);
      if out.None? {
        InferEachSpec(model, paths, |paths|);
        return None, individual;
      }
      IndividualsSnoc(model, paths, i, vs, out.value);
      vs := vs + [out.value];
      individual := individual + [IndividualOf(model.names, paths[i], out.value)];
    }
    assert paths[..|paths|] == paths;
    probs := Some(vs);
  }

  // ------------------------------------------------------------------
  // predict_batch
  // ------------------------------------------------------------------

  datatype SinglePrediction = SinglePrediction(imagePath: string, prediction: Decision, isConfident: bool)

  /** The entry for one path whose result has been decided. */
  function EntryOf(path: string, d: Decision, threshold: real): (p: SinglePrediction)
    ensures p.imagePath == path && p.prediction == d
    ensures p.isConfident <==> d.confidence >= threshold
  {
    SinglePrediction(path, d, d.confidence >= threshold)
  }

  /** The entry built from one result of the classifier. */
  function PredictionOf(names: seq<string>, path: string, v: Vector, threshold: real): (p: SinglePrediction)
    requires |v| == |names| > 0
    ensures p.imagePath == path && p.prediction.confidence == v[ArgMax(v)]
    ensures p.prediction.className == names[ArgMax(v)]
    ensures p.isConfident <==> p.prediction.confidence >= threshold
  {
    EntryOf(path, Decide(names, v), threshold)
  }

  /** `image_paths[i:i + b]` for i = 0, b, 2b, ... */
  function Batches(paths: seq<string>, b: nat): seq<seq<string>>
    requires b > 0
    decreases |paths|
  {
    if paths == [] then []
    else if |paths| <= b then [paths]
    else [paths[..b]] + Batches(paths[b..], b)
  }

  function Flatten(bs: seq<seq<string>>): seq<string> {
    if bs == [] then [] else bs[0] + Flatten(bs[1..])
  }

  /** The batches put back together are the input. */
  lemma {:induction false} BatchesFlatten(paths: seq<string>, b: nat)
    requires b > 0
    ensures Flatten(Batches(paths, b)) == paths
    decreases |paths|
  {
    if |paths| > b {
      BatchesFlatten(paths[b..], b);
      assert paths[..b] + paths[b..] == paths;
    }
  }

  /** Every batch holds b paths except the last, which holds 1 to b. */
  predicate SizedBatches(bs: seq<seq<string>>, b: nat) {
    forall k :: 0 <= k < |bs| ==> 0 < |bs[k]| <= b && (k < |bs| - 1 ==> |bs[k]| == b)
  }

  lemma {:induction false} BatchesSizes(paths: seq<string>, b: nat)
    requires b > 0
    ensures SizedBatches(Batches(paths, b), b)
    decreases |paths|
  {
    if |paths| > b {
      BatchesSizes(paths[b..], b);
      var rest := Batches(paths[b..], b);
      var bs := Batches(paths, b);
      assert bs == [paths[..b]] + rest;
      assert |paths[..b]| == b;
      assert rest != [] by {
        assert paths[b..] != [];
      }
      forall k | 0 <= k < |bs|
        ensures 0 < |bs[k]| <= b && (k < |bs| - 1 ==> |bs[k]| == b)
      {
        if k > 0 {
          assert bs[k] == rest[k - 1];
        }
      }
    }
  }

  /** What `predict_batch` returns or raises. A positive batch size does
      not change the answer; a negative one makes the range empty. */
  function BatchOutcome(model: Classifier<string>, paths: seq<string>, threshold: real, batchSize: int)
    : (r: Result<seq<SinglePrediction>, PredictError>)
    requires WellFormed(model)
    ensures batchSize == 0 <==> r == Failure(ZeroBatchSize)
    ensures batchSize < 0 ==> r == Success([])
    ensures batchSize > 0 ==> r == PredictAll(model, paths, threshold)
  {
    if batchSize == 0 then Failure(ZeroBatchSize)
    else if batchSize < 0 then Success([])
    else PredictAll(model, paths, threshold)
  }

  /** One prediction per path in input order, or a raise. */
  function PredictAll(model: Classifier<string>, paths: seq<string>, threshold: real)
    : (r: Result<seq<SinglePrediction>, PredictError>)
    requires WellFormed(model)
    ensures r.Failure? ==> r.error == InferenceFailed
    ensures r.Success? ==> |r.value| == |paths|
  {
    match InferEach(model, paths, |paths|)
    case None => Failure(InferenceFailed)
    case Some(vs) => Success(Entries(paths, Decisions(model.names, vs), threshold))
  }

  /** The batch run succeeds exactly when the classifier answers for every
      path, and entry i is the prediction for path i. */
  lemma PredictAllSpec(model: Classifier<string>, paths: seq<string>, threshold: real)
    requires WellFormed(model)
    ensures PredictAll(model, paths, threshold).Success? <==> forall i :: 0 <= i < |paths| ==> model.infer(paths[i]).Some?
    ensures PredictAll(model, paths, threshold).Success? ==> forall i :: 0 <= i < |paths| ==>
      PredictAll(model, paths, threshold).value[i] == PredictionOf(model.names, paths[i], model.infer(paths[i]).value, threshold)
  {
    InferEachSpec(model, paths, |paths|);
    match InferEach(model, paths, |paths|)
    case None =>
    case Some(vs) =>
      EntriesAll(model.names, paths, vs, threshold);
  }

  /** `f` applied to each element, built by appending. */
  function Map<A, B>(f: A --> B, xs: seq<A>): (ys: seq<B>)
    requires forall i :: 0 <= i < |xs| ==> f.requires(xs[i])
    ensures |ys| == |xs|
    decreases |xs|
  {
    if xs == [] then []
    else
      var n := |xs| - 1;
      Map(f, xs[..n]) + [f(xs[n])]
  }

  lemma {:induction false} MapAt<A, B>(f: A --> B, xs: seq<A>, i: nat)
    requires forall i :: 0 <= i < |xs| ==> f.requires(xs[i])
    requires i < |xs|
    ensures Map(f, xs)[i] == f(xs[i])
    decreases |xs|
  {
    var n := |xs| - 1;
    assert Map(f, xs) == Map(f, xs[..n]) + [f(xs[n])];
    if i < n {
      MapAt(f, xs[..n], i);
      assert xs[..n][i] == xs[i];
    } else {
      assert i == n;
    }
  }

  lemma {:induction false} MapConcat<A, B>(f: A --> B, xs: seq<A>, ys: seq<A>)
    requires forall i :: 0 <= i < |xs| ==> f.requires(xs[i])
    requires forall i :: 0 <= i < |ys| ==> f.requires(ys[i])
    ensures forall i :: 0 <= i < |xs + ys| ==> f.requires((xs + ys)[i])
    ensures Map(f, xs + ys) == Map(f, xs) + Map(f, ys)
    decreases |ys|
  {
    assert forall i :: 0 <= i < |xs + ys| ==> (xs + ys)[i] == if i < |xs| then xs[i] else ys[i - |xs|];
    if ys == [] {
      assert xs + ys == xs;
    } else {
      var n := |ys| - 1;
      var m := |xs + ys| - 1;
      assert m == |xs| + n;
      MapConcat(f, xs, ys[..n]);
      assert (xs + ys)[..m] == xs + ys[..n];
      assert (xs + ys)[m] == ys[n];
      assert Map(f, xs + ys) == Map(f, (xs + ys)[..m]) + [f((xs + ys)[m])];
      assert Map(f, ys) == Map(f, ys[..n]) + [f(ys[n])];
      var front, back, last := Map(f, xs), Map(f, ys[..n]), f(ys[n]);
      assert front + (back + [last]) == (front + back) + [last];
    }
  }

  /** The decision rule for one classifier's vectors. */
  function DecideIn(names: seq<string>): Vector --> Decision {
    v requires |v| == |names| > 0 => Decide(names, v)
  }

  /** The decision for each result, in order. */
  function Decisions(names: seq<string>, vs: seq<Vector>): (ds: seq<Decision>)
    requires |names| > 0 && Rectangular(vs, |names|)
    ensures |ds| == |vs|
  {
    Map(DecideIn(names), vs)
  }

  /** Decision i is the decision for result i. */
  lemma DecisionsAt(names: seq<string>, vs: seq<Vector>, i: nat)
    requires |names| > 0 && Rectangular(vs, |names|) && i < |vs|
    ensures Decisions(names, vs)[i] == Decide(names, vs[i])
  {
    MapAt(DecideIn(names), vs, i);
  }

  /** Decisions of joined results are the joined decisions. */
  lemma DecisionsConcat(names: seq<string>, vs: seq<Vector>, ws: seq<Vector>)
    requires |names| > 0 && Rectangular(vs, |names|) && Rectangular(ws, |names|)
    ensures Rectangular(vs + ws, |names|)
    ensures Decisions(names, vs + ws) == Decisions(names, vs) + Decisions(names, ws)
  {
    MapConcat(DecideIn(names), vs, ws);
  }

  /** The entries appended one decided result at a time. */
  function Entries(paths: seq<string>, ds: seq<Decision>, threshold: real): (ps: seq<SinglePrediction>)
    requires |ds| == |paths|
    ensures |ps| == |paths|
    decreases |paths|
  {
    if paths == [] then []
    else
      var n := |paths| - 1;
      Entries(paths[..n], ds[..n], threshold) + [EntryOf(paths[n], ds[n], threshold)]
  }

  /** Entry i is built from path i and decision i. */
  lemma {:induction false} EntriesAt(paths: seq<string>, ds: seq<Decision>, threshold: real, i: nat)
    requires |ds| == |paths| && i < |paths|
    ensures Entries(paths, ds, threshold)[i] == EntryOf(paths[i], ds[i], threshold)
    decreases |paths|
  {
    var n := |paths| - 1;
    var front := Entries(paths[..n], ds[..n], threshold);
    assert Entries(paths, ds, threshold) == front + [EntryOf(paths[n], ds[n], threshold)];
    if i < n {
      EntriesAt(paths[..n], ds[..n], threshold, i);
      assert paths[..n][i] == paths[i] && ds[..n][i] == ds[i];
    }
  }

  /** Every entry is the prediction of its path's result. */
  lemma EntriesAll(names: seq<string>, paths: seq<string>, vs: seq<Vector>, threshold: real)
    requires |names| > 0 && |vs| == |paths| && Rectangular(vs, |names|)
    ensures forall i :: 0 <= i < |paths| ==>
      Entries(paths, Decisions(names, vs), threshold)[i] == PredictionOf(names, paths[i], vs[i], threshold)
  {
    var ds := Decisions(names, vs);
    forall i | 0 <= i < |paths|
      ensures Entries(paths, ds, threshold)[i] == PredictionOf(names, paths[i], vs[i], threshold)
    {
      EntriesAt(paths, ds, threshold, i);
      DecisionsAt(names, vs, i);
    }
  }

  /** Entries of two runs side by side are the entries of the joined run. */
  lemma {:induction false} EntriesConcat(p1: seq<string>, d1: seq<Decision>, p2: seq<string>, d2: seq<Decision>,
                                         threshold: real)
    requires |d1| == |p1| && |d2| == |p2|
    ensures Entries(p1, d1, threshold) + Entries(p2, d2, threshold) == Entries(p1 + p2, d1 + d2, threshold)
    decreases |p2|
  {
    if p2 == [] {
      assert p1 + p2 == p1 && d1 + d2 == d1;
    } else {
      var n := |p2| - 1;
      EntriesConcat(p1, d1, p2[..n], d2[..n], threshold);
      assert (p1 + p2)[..|p1| + n] == p1 + p2[..n];
      assert (d1 + d2)[..|d1| + n] == d1 + d2[..n];
      assert (p1 + p2)[|p1| + n] == p2[n] && (d1 + d2)[|d1| + n] == d2[n];
    }
  }

  lemma PrefixJoin(paths: seq<string>, i: nat, j: nat)
    requires i <= j <= |paths|
    ensures paths[..i] + paths[i..j] == paths[..j]
  {
  }

  /** Running the classifier over the first m paths of a slice starting at
      i extends a run over the first i paths by the slice's vectors. */
  lemma {:induction false} InferEachShift(model: Classifier<string>, paths: seq<string>, i: nat,
                                          batch: seq<string>, m: nat, vs: seq<Vector>, ws: seq<Vector>)
    requires WellFormed(model) && i + |batch| <= |paths| && batch == paths[i..i + |batch|] && m <= |batch|
    requires InferEach(model, paths, i) == Some(vs)
    requires InferEach(model, batch, m) == Some(ws)
    ensures InferEach(model, paths, i + m) == Some(vs + ws)
    decreases m
  {
    if m == 0 {
      assert vs + ws == vs;
    } else {
      var us := InferEach(model, batch, m - 1).value;
      InferEachShift(model, paths, i, batch, m - 1, vs, us);
      assert batch[m - 1] == paths[i + m - 1];
      assert vs + ws == (vs + us) + [ws[m - 1]];
    }
  }

  /** The vectors of a slice extend the vectors of the prefix before it. */
  lemma InferEachExtend(model: Classifier<string>, paths: seq<string>, i: nat, j: nat,
                        batch: seq<string>, vs: seq<Vector>, ws: seq<Vector>)
    requires WellFormed(model) && i <= j <= |paths| && batch == paths[i..j]
    requires InferEach(model, paths, i) == Some(vs)
    requires InferEach(model, batch, |batch|) == Some(ws)
    ensures InferEach(model, paths, j) == Some(vs + ws)
  {
    InferEachShift(model, paths, i, batch, |batch|, vs, ws);
  }

  /** A slice whose results all come back extends both the vectors and the
      entries of the prefix before it. */
  lemma BatchAdvance(model: Classifier<string>, paths: seq<string>, threshold: real, i: nat, j: nat,
                     batch: seq<string>, vs: seq<Vector>, ws: seq<Vector>, preds: seq<SinglePrediction>)
    requires WellFormed(model) && i <= j <= |paths| && batch == paths[i..j]
    requires InferEach(model, paths, i) == Some(vs)
    requires InferEach(model, batch, |batch|) == Some(ws)
    requires preds == Entries(paths[..i], Decisions(model.names, vs), threshold)
    ensures InferEach(model, paths, j) == Some(vs + ws)
    ensures preds + Entries(batch, Decisions(model.names, ws), threshold)
         == Entries(paths[..j], Decisions(model.names, vs + ws), threshold)
  {
    InferEachExtend(model, paths, i, j, batch, vs, ws);
    DecisionsConcat(model.names, vs, ws);
    EntriesConcat(paths[..i], Decisions(model.names, vs), batch, Decisions(model.names, ws), threshold);
    PrefixJoin(paths, i, j);
  }

  /** A slice on which the classifier raises makes the whole call raise. */
  lemma PredictAllStops(model: Classifier<string>, paths: seq<string>, threshold: real, i: nat, j: nat,
                        batch: seq<string>)
    requires WellFormed(model) && i <= j <= |paths| && batch == paths[i..j]
    requires InferEach(model, batch, |batch|).None?
    ensures PredictAll(model, paths, threshold) == Failure(InferenceFailed)
  {
    InferEachSpec(model, batch, |batch|);
    InferEachSpec(model, paths, |paths|);
    var t :| 0 <= t < |batch| && model.infer(batch[t]).None?;
    assert batch[t] == paths[i + t];
  }

  /** The batch slices: one step of the loop takes the next `Batches` entry. */
  lemma BatchesStep(paths: seq<string>, b: nat, i: nat, j: nat, done: seq<seq<string>>)
    requires b > 0 && i < |paths| && j == if i + b <= |paths| then i + b else |paths|
    requires done + Batches(paths[i..], b) == Batches(paths, b)
    ensures (done + [paths[i..j]]) + Batches(paths[j..], b) == Batches(paths, b)
  {
    var rest := paths[i..];
    if |rest| > b {
      assert Batches(rest, b) == [rest[..b]] + Batches(rest[b..], b);
      assert rest[..b] == paths[i..j];
      assert rest[b..] == paths[j..];
    } else {
      assert Batches(rest, b) == [rest];
      assert paths[i..j] == rest;
      assert paths[j..] == [];
      assert Batches(paths[j..], b) == [];
    }
    assert (done + [paths[i..j]]) + Batches(paths[j..], b) == done + ([paths[i..j]] + Batches(paths[j..], b));
  }

  /** `predict_batch`: a zero step raises, a negative one does nothing,
      otherwise the classifier runs on consecutive slices. */
  method PredictBatch(model: Classifier<string>, paths: seq<string>, threshold: real, batchSize: int)
    returns (r: Result<seq<SinglePrediction>, PredictError>, ghost batches: seq<seq<string>>)
    requires WellFormed(model)
    ensures r == BatchOutcome(model, paths, threshold, batchSize)
    ensures batchSize > 0 && r.Success? ==> batches == Batches(paths, batchSize)
  {
    if batchSize == 0 {
      return Failure(ZeroBatchSize), [];
    }
    if batchSize < 0 {
      return Success([]), [];
    }
    r, batches := RunBatches(model, paths, threshold, batchSize);
  }

  /** The state of the `predict_batch` loop before the slice at `i`: the
      slices so far are the first ones of `Batches`, the first `i` paths have
      been classified into `vs`, and `preds` holds their entries. */
  ghost predicate BatchState(model: Classifier<string>, paths: seq<string>, threshold: real, b: nat, i: nat,
                             batches: seq<seq<string>>, vs: seq<Vector>, preds: seq<SinglePrediction>)
    requires WellFormed(model) && b > 0
  {
    i <= |paths| &&
    batches + Batches(paths[i..], b) == Batches(paths, b) &&
    InferEach(model, paths, i) == Some(vs) &&
    preds == Entries(paths[..i], Decisions(model.names, vs), threshold)
  }

  /** The loop of `predict_batch` over the slices `paths[i..i + b]`. */
  method RunBatches(model: Classifier<string>, paths: seq<string>, threshold: real, b: nat)
    returns (r: Result<seq<SinglePrediction>, PredictError>, ghost batches: seq<seq<string>>)
    requires WellFormed(model) && b > 0
    ensures r == PredictAll(model, paths, threshold)
    ensures r.Success? ==> batches == Batches(paths, b)
  {
    batches := [];
    var preds: seq<SinglePrediction> := [];
    ghost var vs: seq<Vector> := [];
    var i := 0;
    assert paths[0..] == paths;
    while i < |paths|
      invariant BatchState(model, paths, threshold, b, i, batches, vs, preds)
      decreases |paths| - i
    {
      var j, ok;
      j, ok, preds, vs := NextBatch(model, paths, threshold, b, i, batches, preds, vs);
      if !ok {
        return Failure(InferenceFailed), batches;
      }
      batches := batches + [paths[i..j]];
      i := j;
    }
    BatchStateDone(model, paths, threshold, b, batches, vs, preds);
    r := Success(preds);
  }

  /** When the loop ends the slices are all of `Batches` and the entries
      are those of the whole call. */
  lemma BatchStateDone(model: Classifier<string>, paths: seq<string>, threshold: real, b: nat,
                       batches: seq<seq<string>>, vs: seq<Vector>, preds: seq<SinglePrediction>)
    requires WellFormed(model) && b > 0
    requires BatchState(model, paths, threshold, b, |paths|, batches, vs, preds)
    ensures batches == Batches(paths, b)
    ensures Success(preds) == PredictAll(model, paths, threshold)
  {
    assert paths[|paths|..] == [];
    assert paths[..|paths|] == paths;
  }

  /** One pass of the loop of `predict_batch`: classify the slice
      `paths[i..i + b]` and append one entry per result. */
  method NextBatch(model: Classifier<string>, paths: seq<string>, threshold: real, b: nat, i: nat,
                   ghost batches: seq<seq<string>>, preds: seq<SinglePrediction>, ghost vs: seq<Vector>)
    returns (j: nat, ok: bool, preds': seq<SinglePrediction>, ghost vs': seq<Vector>)
    requires WellFormed(model) && b > 0 && i < |paths|
    requires BatchState(model, paths, threshold, b, i, batches, vs, preds)
    ensures i < j <= |paths| && j == if i + b <= |paths| then i + b else |paths|
    ensures !ok ==> PredictAll(model, paths, threshold) == Failure(InferenceFailed)
    ensures ok ==> BatchState(model, paths, threshold, b, j, batches + [paths[i..j]], vs', preds')
  {
    j := if i + b <= |paths| then i + b else |paths|;
    var batch := paths[i..j];
    var results := RunBatch(model, batch);
    if results.None? {
      PredictAllStops(model, paths, threshold, i, j, batch);
      return j, false, preds, vs;
    }
    var ws := results.value;
    BatchAdvance(model, paths, threshold, i, j, batch, vs, ws, preds);
    BatchesStep(paths, b, i, j, batches);
    preds' := preds + Entries(batch, Decisions(model.names, ws), threshold);
    vs' := vs + ws;
    ok := true;
  }

  /** `model(batch_paths)`: one vector per path in order, or a raise. */
  method RunBatch(model: Classifier<string>, batch: seq<string>) returns (r: Option<seq<Vector>>)
    requires WellFormed(model)
    ensures r == InferEach(model, batch, |batch|)
  {
    var vs: seq<Vector> := [];
    for t := 0 to |batch|
      invariant InferEach(model, batch, t) == Some(vs)
    {
      var out := model.infer(batch[t]);
      if out.None? {
        InferEachSpec(model, batch, |batch|);
        return None;
      }
      vs := vs + [out.value];
    }
    r := Some(vs);
  }
}
