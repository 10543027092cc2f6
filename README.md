# Tower classification service and dataset preparation, in Dafny

This project models the decision logic of a service that classifies photographs of
telecommunication pole and tower installations into nine structure classes. It
covers three Python files:

- `yolov8/api/main.py` is the HTTP service. It checks uploaded file types and
  stores uploads in a temporary directory, deleting them afterwards. It loads
  the model once, runs single-image and multi-image ("ensemble") prediction,
  records user corrections ("feedback") in an object store with a local
  fallback folder, and counts the feedback per class.
- `yolov8/predict.py` is the offline tool. It covers the same ensemble
  aggregation over image paths, batch prediction in consecutive slices,
  renaming image files after their predicted class, and the per-class summary.
- `yolov8/utils/data_prepare.py` builds the training set. It maps the survey's
  free-text structure types to class identifiers and collects each row's image
  into its class list. It then shuffles each list, cuts it into train and
  validation parts, and copies the images into the output tree.

The classifier is abstract: a label list and a partial function from an input
(the bytes of an uploaded file, or a path) to one probability per label. The
failure of the function stands for a raised exception. The object store, the
file system, the clock, uuid generation and the random generator are parameters
or small classes.

Modules, one per concern:

| module | file | what it holds |
|---|---|---|
| `Wrappers` | wrappers.dfy | `Option` and `Result` |
| `Labels` | labels.dfy | `CLASS_NAMES_KR`, `SHORT_NAMES`, `dict.get` with fallback, `GET /classes` |
| `Paths` | paths.dfy | pathlib's `name`, `suffix`, `stem`, `parent / name` and ASCII `lower()` |
| `Uploads` | uploads.dfy | `validate_image` and the temporary upload directory (a class) |
| `Models` | models.dfy | the abstract classifier and the `load_model` memo (a class) |
| `Ensemble` | ensemble.dfy | argmax, top-5, mean/max/vote aggregation, the vote loop, `ensemble_predictions` |
| `EnsembleFacts` | ensemble_facts.dfy | the properties of the aggregation |
| `Api` | api.dfy | `/predict` and `/predict/ensemble`: checks, save, infer and cleanup |
| `ApiFacts` | api_facts.dfy | the properties of the ensemble endpoint |
| `Feedback` | feedback.dfy | `/feedback`, the bucket and the fallback folder (a class), `/feedback/stats` |
| `Predict` | predict.dfy | `ensemble_predict` and `predict_batch` of `predict.py` |
| `Rename` | rename.dfy | `rename_files_by_prediction` over a file-system class |
| `Summary` | summary.dfy | the tally of `print_summary` |
| `DataPrepare` | dataprep.dfy | `TYPE_MAPPING`, `map_type_to_class`, the row loop |
| `Dataset` | dataset.dfy | the shuffle, the train/val cut, the copies and the totals |

Loops that update variables in the source are methods with loop invariants. Each
method is proved equal to a function of its inputs (or of the old state), and
the properties are proved about that function. Examples:

- the vote counter (`Ensemble.CountVotes`);
- the save-and-infer loop of the ensemble endpoint (`Api.InferAll`);
- the batch loop (`Predict.RunBatches`);
- the rename loop (`Rename.RenameFilesByPrediction`);
- the summary loop (`Summary.PrintSummary`);
- the row loop (`DataPrepare.CollectImages`);
- the in-place Fisher–Yates shuffle on an array (`Dataset.Shuffle`);
- the split loop (`Dataset.SplitAll`).

Points where the code behaves differently from what its names or comments
suggest. The model follows the code:

- **Single-image ensembles.** `/predict/ensemble` aggregates even a single
  image instead of passing its result through, so `vote` reports confidence
  1.0 for it (`EnsembleFacts.SingleImageVote`).
- **Top-5 tie order.** The ensembles build the top-5 list with numpy's
  unstable `argsort`, reversed, while `/predict` and `predict_batch` take
  the classifier's own `probs.top5`, so the two may order equal
  probabilities differently. The model ranks every list the same way
  (lowest index first among equal values); no lemma compares top-5 lists
  built by the two different sorts.
- **Feedback fallback.** When the bucket upload fails and the local copy
  raises as well, `/feedback` answers 500 (`CopyFailed`).
- **Feedback stats.** A listing error other than a client error makes the
  whole `/feedback/stats` answer `success: false` (`Crashed`), not a partial
  count.
- **Temporary files.** A file that was opened but whose write raised is never
  recorded, so the `finally` clause does not remove it (the `leaked` ghost
  out-parameter). A recorded file whose removal raises stays too, because
  `cleanup_file` swallows the error (the `Stuck` paths).
- **No files.** `files` is a required form field of `/predict/ensemble`, so a
  request without files is rejected with 422 before the handler runs, and the
  handler's own 400 for fewer than one file (yolov8/api/main.py:441-442) is
  never reached.
- **Model construction.** `load_model()` raises both when the model file is
  missing and when a model cannot be built from an existing file; either way
  the slot stays empty and the request is a 500.

## Model

| member | source | states |
|---|---|---|
| Labels.LookupSpec | yolov8/api/main.py:50-72 | a dictionary lookup misses exactly when no entry has the key, and a hit is the value of an entry with that key |
| Labels.LookupUnique | yolov8/api/main.py:50-72 | in a table without repeated keys, looking up entry i's key yields entry i's value |
| Labels.ClassNamesKrDistinct | yolov8/api/main.py:50-60 | no identifier is written twice in CLASS_NAMES_KR |
| Labels.ShortNamesDistinct | yolov8/api/main.py:62-72 | no Korean name is written twice in SHORT_NAMES |
| Labels.TablesWellFormed | yolov8/api/main.py:50-72 | both tables are proper dictionaries; the nine `/classes` identifiers are CLASS_NAMES_KR's keys in order; SHORT_NAMES is keyed by the Korean names in the same order |
| Labels.KnownClassNames | yolov8/api/main.py:264-265 | a known identifier resolves to its own Korean name, and that name always has a short name (no fallback applies) |
| Labels.UnknownFallsBack | yolov8/api/main.py:264 | an identifier outside the table is displayed as itself |
| Labels.GetClasses | yolov8/api/main.py:356-372 | nine rows in class order; that every row carries the table's Korean and short names, so no fallback ever shows, is proved by `Labels.ClassesMatchPredictionNames` |
| Labels.ClassesMatchPredictionNames | yolov8/api/main.py:360-369 | for the nine classes the English-name fallback of `short_name` never applies: `/classes` reports the same names as predictions |
| Paths.LastIndex | yolov8/api/main.py:197 | the position of the last occurrence of a character, or -1 when there is none |
| Paths.FileName | yolov8/api/main.py:197 | `Path(p).name` is the '/'-free tail of the path |
| Paths.NameSuffix | yolov8/api/main.py:197 | a suffix is empty or a '.' followed by at least one non-dot character, and it ends the name |
| Paths.Suffix | yolov8/api/main.py:197 | `Path(p).suffix` has the pathlib shape and no '/' |
| Paths.StemSuffixSplit | yolov8/api/main.py:533-534 | stem followed by suffix is the file name |
| Paths.SiblingName | yolov8/predict.py:297 | `parent / name` has the new name as its name and keeps the directory part |
| Paths.Lower | yolov8/api/main.py:197 | one character per character; what lower-casing means for the file check is proved by `Paths.SuffixOfLower` (the suffix commutes with it), `Uploads.LowerTwice` (idempotent) and `Uploads.ValidateImageIgnoresCase` |
| Paths.SuffixOfLower | yolov8/api/main.py:197 | taking the suffix commutes with lower-casing |
| Uploads.AllowedExtensionsShape | yolov8/api/main.py:39 | every allowed extension is a dot followed by non-dot, non-slash characters |
| Uploads.ValidateImageIffEndsWith | yolov8/api/main.py:195-198 | a file is accepted exactly when its lower-cased name ends with an allowed extension with at least one character before it |
| Uploads.AllowedSuffixIffEnding | yolov8/api/main.py:195-198 | the same equivalence stated on the file-name part |
| Uploads.ValidateImageIgnoresCase | yolov8/api/main.py:197 | the check is case-insensitive |
| Uploads.LeadingDotRejected | yolov8/api/main.py:197 | a name whose only dot is its first character (e.g. `.jpg`) has no suffix and is rejected |
| Uploads.NoDotRejected | yolov8/api/main.py:197 | a name without a dot is rejected |
| Uploads.TempDir.constructor | yolov8/api/main.py:35-36 | the upload directory starts empty |
| Uploads.TempDir.Save | yolov8/api/main.py:201-211 | when `open` raises nothing is created; otherwise a fresh, never-used path with the lower-cased extension is created and stays, and it is returned only when the write completes |
| Uploads.TempDir.Cleanup | yolov8/api/main.py:214-220 | never raises; removes the path when the removal succeeds, else leaves the directory as it was; touches nothing else |
| Models.Loaded | yolov8/api/main.py:170-178 | a cached model is returned as is; otherwise a model is obtained exactly when the model path exists and the construction succeeds, and it is the constructed one |
| Models.ModelSlot.constructor | yolov8/api/main.py:167 | the global starts as None |
| Models.ModelSlot.Load | yolov8/api/main.py:170-178 | the cached model is kept; a model is built at most once, only when the path exists and the construction succeeds; a missing path or a failed construction raises and leaves the slot empty |
| Models.LoadIsMemoised | yolov8/api/main.py:170-178 | two calls in a row: after a success the second call returns the same model; a model is built at most once; a failure means no cached model and either no model file or a failed construction |
| Ensemble.ArgMax | yolov8/api/main.py:306 | the index holds the maximum and every earlier index holds less (the first maximum) |
| Ensemble.ArgMaxUnique | yolov8/api/main.py:306 | those two facts determine the argmax |
| Ensemble.TopFrom | yolov8/api/main.py:311 | repeated selection gives distinct in-range indices in non-increasing value order, and no left-out candidate beats a chosen one |
| Ensemble.TopK | yolov8/api/main.py:311 | top-k has min(k, n) distinct indices, non-increasing values, and every value left out is at most every value chosen |
| Ensemble.TopKHeadIsMax | yolov8/api/main.py:306-311 | whatever the tie order, the head of the top-5 holds the maximum value |
| Ensemble.Column | yolov8/api/main.py:295 | one value per image; that the column sums add up to the row sums is proved by `EnsembleFacts.ColumnSumsTotal` |
| Ensemble.Max | yolov8/api/main.py:297 | each entry is at least every input's entry there and equal to one of them |
| Ensemble.MaxOf | yolov8/api/main.py:297 | the largest entry bounds every entry and occurs in the sequence |
| Ensemble.BestOf | yolov8/api/main.py:311 | the chosen candidate holds a value at least every other candidate's |
| Ensemble.ColumnSums | yolov8/api/main.py:295 | one column sum per class; their total is proved by `EnsembleFacts.ColumnSumsTotal` |
| Ensemble.Mean | yolov8/api/main.py:294-295 | one entry per class; its meaning is proved by `EnsembleFacts.MeanSumsToOne`, `MeanInUnitInterval` and `MeanOfIdentical` |
| Ensemble.VoteCounts | yolov8/api/main.py:299-301 | one count per class; its meaning is proved by `EnsembleFacts.VoteCountIsVoters` and `VoteCountsTotal` |
| Ensemble.VoteShares | yolov8/api/main.py:302 | one share per class; its meaning is proved by `EnsembleFacts.VoteSharesSumToOne` and `VoteSharesInUnitInterval` |
| Ensemble.Aggregate | yolov8/api/main.py:294-304 | one entry per class; which aggregator each strategy selects is proved by `EnsembleFacts.AggregateStrategies` and `UnknownStrategyIsMean` |
| Ensemble.Scale | yolov8/api/main.py:294-302 | one value per entry; that dividing every entry divides the sum is proved by `EnsembleFacts.SumScale` |
| Ensemble.Ranked | yolov8/api/main.py:318-325 | one ranked entry per chosen index; that the ranked list starts at the decided confidence and never increases is proved by `Ensemble.DecideSpec` |
| Ensemble.DecideSpec | yolov8/api/main.py:306-326 | the decision is the first maximum of the aggregate, its confidence is the value there, its names come from the tables, and its top-5 has min(5, n) entries starting at that confidence and never increasing |
| Ensemble.CountVotes | yolov8/api/main.py:299-301 | the in-place vote loop yields the reference vote counts |
| Ensemble.EnsemblePredictions | yolov8/api/main.py:286-327 | raises exactly on an empty list, otherwise decides on the aggregate of the chosen strategy |
| EnsembleFacts.SumScale | yolov8/api/main.py:295 | dividing every entry divides the sum |
| EnsembleFacts.ColumnSumsTotal | yolov8/api/main.py:295 | adding the column sums is adding the row sums |
| EnsembleFacts.MeanSumsToOne | yolov8/api/main.py:295 | the mean of probability distributions sums to one |
| EnsembleFacts.MeanInUnitInterval | yolov8/api/main.py:295 | the mean of probabilities stays in [0, 1] |
| EnsembleFacts.MeanOfIdentical | yolov8/api/main.py:295 | the mean of copies of one vector is that vector |
| EnsembleFacts.MaxOfIdentical | yolov8/api/main.py:297 | the max of copies of one vector is that vector |
| EnsembleFacts.VoteCountIsVoters | yolov8/api/main.py:299-301 | class j's count is the number of images whose first maximum is j |
| EnsembleFacts.VotersStep | yolov8/api/main.py:300-301 | one more image votes for its own class and no other |
| EnsembleFacts.VoteCountsTotal | yolov8/api/main.py:299-301 | one vote per image: the counts sum to N |
| EnsembleFacts.VoteSharesSumToOne | yolov8/api/main.py:302 | the vote shares sum to one |
| EnsembleFacts.VoteSharesInUnitInterval | yolov8/api/main.py:302 | every vote share is in [0, 1] |
| EnsembleFacts.VoteCountsOfIdentical | yolov8/api/main.py:299-301 | identical inputs give all N votes to their argmax |
| EnsembleFacts.VoteSharesOfIdentical | yolov8/api/main.py:299-302 | identical inputs give share 1 to their argmax and 0 elsewhere |
| EnsembleFacts.DecideAt | yolov8/api/main.py:306-309 | a strict maximum is the decided class, with its value as confidence |
| EnsembleFacts.AggregateStrategies | yolov8/api/main.py:294-302 | "mean", "max" and "vote" select their own aggregator |
| EnsembleFacts.VoteOfIdentical | yolov8/api/main.py:298-309 | voting over N identical inputs picks their argmax with confidence 1 |
| EnsembleFacts.TwoOfThreeVote | yolov8/api/main.py:298-309 | two of three images agreeing carry the vote with confidence 2/3 |
| EnsembleFacts.UnknownStrategyIsMean | yolov8/api/main.py:303-304 | any other strategy string aggregates exactly like mean |
| EnsembleFacts.AggregateInUnitInterval | yolov8/api/main.py:294-309 | with probability inputs every aggregate entry and the final confidence are in [0, 1] |
| EnsembleFacts.SingleImageMeanOrMax | yolov8/api/main.py:476 | a one-image ensemble under mean or max decides as the image alone |
| EnsembleFacts.SingleImageVote | yolov8/api/main.py:476 | a one-image ensemble under vote keeps the image's class but reports confidence 1 |
| Api.Process | yolov8/api/main.py:460-466 | one upload fails with an open error exactly when `open` raises and with a write error exactly when the write raises; a success has a saved upload, a loaded model and one probability per class |
| Api.SaveAndInfer | yolov8/api/main.py:460-466 | save then infer yields `Process` of the loaded model; the path is recorded exactly when the write completes; a file opened but not written stays behind unrecorded; a failed open creates nothing |
| Api.InferNext | yolov8/api/main.py:461-466 | one turn of the loop: the upload's outcome is `Process` of the loaded model; its path, when the write completes, is appended after the earlier ones with a fresh id; a file opened but not written stays unrecorded and is none of the recorded paths |
| Api.LoadAndInfer | yolov8/api/main.py:252-253 | `load_model()` then the classifier call on a saved upload |
| Api.CleanupAll | yolov8/api/main.py:499-501 | the `finally` loop removes exactly the recorded paths whose removal succeeds, and nothing else |
| Api.PredictSingleOutcome | yolov8/api/main.py:375-422 | a success implies a threshold in [0, 1], an accepted file type and a loaded model; `is_confident` is exactly confidence >= threshold |
| Api.SingleOutcome | yolov8/api/main.py:395-419 | after the checks only server errors remain, and `is_confident` is exactly confidence >= threshold |
| Api.PredictSingle | yolov8/api/main.py:375-422 | answers `PredictSingleOutcome`; a rejected request changes nothing; afterwards the directory holds what it held before, plus a file opened but not written, plus the saved upload only when its removal fails; after the checks pass, the model slot holds the model `load_model` gives when the upload was saved, and is untouched otherwise |
| Api.RunSingle | yolov8/api/main.py:395-422 | answers `SingleOutcome`; the saved upload is removed in `finally` unless its removal fails; the model slot holds the model `load_model` gives when the upload was saved, and is untouched otherwise |
| Api.IndividualOf | yolov8/api/main.py:467-472 | one image's entry names the first class of highest probability for that image, with its Korean name, and its confidence is at least every probability of that image |
| Api.FirstInvalid | yolov8/api/main.py:448-453 | the position of the first upload with a rejected type, or the count |
| Api.FirstInvalidAt | yolov8/api/main.py:448-453 | that position is determined by its defining facts |
| Api.ProcessAll | yolov8/api/main.py:459-472 | a success has one vector per upload, each the result of processing that upload |
| Api.Rejection | yolov8/api/main.py:425-453 | the request is accepted exactly when the strategy and threshold are valid, 1..10 files are sent and every file type is accepted; no file at all is a 422 like the other declared-parameter errors; a rejection is never a server error |
| Api.AcceptedOutcome | yolov8/api/main.py:455-497 | after the checks only server errors remain |
| Api.Combine | yolov8/api/main.py:475-492 | the final class is the first class of highest aggregate value, with that value as confidence; entry i belongs to upload i and its confidence is at least every probability of that image; `is_confident` is exactly confidence >= threshold; agreement with `/predict` is proved by `ApiFacts.SingleImageEnsembleIsPredict` |
| Api.Individuals | yolov8/api/main.py:467-472 | one entry per upload, in upload order; what each entry means is stated by `Api.IndividualOf` and `Api.Combine` |
| Api.ProcessAllFailurePersists | yolov8/api/main.py:459-497 | once an upload fails, processing further uploads keeps that failure |
| Api.InferAll | yolov8/api/main.py:459-472 | the loop yields `ProcessAll` over all uploads, records at most one fresh path per upload, and leaves behind at most one unrecorded file (opened but not written) |
| Api.CheckRequest | yolov8/api/main.py:425-453 | the head checks answer exactly `Rejection` |
| Api.CombineAll | yolov8/api/main.py:475-492 | the tail answers exactly `Combine` |
| Api.PredictEnsemble | yolov8/api/main.py:425-501 | answers `PredictEnsembleOutcome`; a rejected request saves nothing and loads nothing; afterwards the directory holds what it held before, plus a file opened but not written, plus the recorded paths whose removal fails; after the checks pass, the model slot is either untouched or holds the model `load_model` gives, and holds that model whenever the request succeeds |
| Api.RunEnsemble | yolov8/api/main.py:455-501 | answers `AcceptedOutcome`; every recorded path is removed unless its removal fails; the model slot is either untouched or holds the model `load_model` gives, and holds that model whenever the request succeeds |
| Api.CleanupLeavesLeak | yolov8/api/main.py:461-501 | after the `finally` loop, the new files are exactly the unrecorded file opened but not written and the recorded paths whose removal failed |
| ApiFacts.ProcessAllFirstFailure | yolov8/api/main.py:459-497 | the run fails with the cause of the first failing upload |
| ApiFacts.PrefixSucceeds | yolov8/api/main.py:459-472 | when every upload of a prefix is processed, the prefix succeeds |
| ApiFacts.EnsembleReportsFirstFailure | yolov8/api/main.py:455-497 | an accepted request answers 500 with the cause of the first failing upload |
| ApiFacts.NoModelIsServerError | yolov8/api/main.py:170-178 | when `load_model()` raises (no model file, or a failed construction), an accepted request whose first upload is saved is a 500 |
| ApiFacts.SingletonAccepted | yolov8/api/main.py:441-453 | one valid file with mean or max and a threshold in range passes the checks |
| ApiFacts.SingletonProcessAll | yolov8/api/main.py:459-472 | processing one upload is processing that upload |
| ApiFacts.SingleImageEnsembleIsPredict | yolov8/api/main.py:375-501 | a one-image ensemble under mean or max fails exactly when `/predict` fails, and otherwise agrees with it on the class index, class name, Korean name, short name, confidence and `is_confident` |
| Feedback.FeedbackOutcome | yolov8/api/main.py:504-579 | the type is checked, then the class; a success echoes both classes; `s3_key` is present exactly when the upload succeeded and is then `feedback/<class>/<ts>_<stem><ext>`; server errors are a failed open, a failed write or a failed copy |
| Feedback.StoreOutcome | yolov8/api/main.py:532-579 | after the checks every failure is a 500: an open error exactly when `open` raises, a write error exactly when the write raises, a copy error exactly when both the upload and the fallback copy fail |
| Feedback.FeedbackStore.constructor | yolov8/api/main.py:41 | the bucket and the fallback folder start empty |
| Feedback.FeedbackStore.Put | yolov8/api/main.py:228-247 | the object is stored exactly when the client call succeeds, and the result says so |
| Feedback.FeedbackStore.Copy | yolov8/api/main.py:557-561 | the copy lands in the fallback folder when it succeeds |
| Feedback.SubmitFeedback | yolov8/api/main.py:504-579 | answers `FeedbackOutcome`; a rejected request stores nothing; the bucket gets the key, or else the fallback folder gets the local path, holding the uploaded bytes; the temporary file is removed unless its removal fails, and a file opened but not written stays |
| Feedback.SaveAndStore | yolov8/api/main.py:532-579 | answers `StoreOutcome`; the bucket changes only when the write completes and the upload succeeds, the fallback folder only when the write completes, the upload fails and the copy succeeds; the temporary file is removed unless its removal fails, and a file opened but not written stays |
| Feedback.StoreAndRemove | yolov8/api/main.py:541-579 | once the file is written: the answer is `StoreOutcome`; the bucket gains the key exactly when the upload succeeds, the fallback folder gains the copy exactly when the upload fails and the copy succeeds; the temporary file is gone unless its removal fails |
| Feedback.OriginalClassUnchecked | yolov8/api/main.py:504-530 | `original_class` never changes whether the request succeeds or where it is stored |
| Feedback.KeyUnderPrefix | yolov8/api/main.py:536-601 | a stored key lies under the stats prefix of class c exactly when c is its corrected class |
| Feedback.SlashTerminatedPrefix | yolov8/api/main.py:536-601 | when a '/'-free name followed by '/' begins a key whose first part is another '/'-free name followed by '/', the two names are equal |
| Feedback.PrefixUnderPrefix | yolov8/api/main.py:536-601 | the prefix of class c begins the prefix of a class followed by any object name exactly when c is that class |
| Feedback.ClassIdsHaveNoSlash | yolov8/api/main.py:50-60 | no class identifier contains '/' |
| Feedback.StemHasNoSlash | yolov8/api/main.py:533 | a stem never contains '/' |
| Feedback.StoredNameKeepsExtension | yolov8/api/main.py:532-541 | the stored object's name is `<ts>_<stem><ext>` and keeps the lower-cased, still valid extension |
| Feedback.ObjectNameHasNoSlash | yolov8/api/main.py:541 | the object name has no '/' |
| Feedback.ObjectNameSuffix | yolov8/api/main.py:533-541 | the object name's suffix is the upload's lower-cased suffix |
| Feedback.StatOf | yolov8/api/main.py:598-610 | one class's entry; its part in the answer is proved by `Feedback.CountAtMostTotal` and `Feedback.AllDeniedTotalZero` |
| Feedback.StatsOf | yolov8/api/main.py:593-610 | one entry per class in table order; the totals are proved by `Feedback.CountAtMostTotal` and `Feedback.AllDeniedTotalZero` |
| Feedback.FeedbackStats | yolov8/api/main.py:582-627 | fails exactly when the client or some listing raises something other than a client error; otherwise per-class stats and their sum as the total |
| Feedback.CollectStats | yolov8/api/main.py:593-617 | the loop over the classes answers `StatsOf` with its total, or fails exactly when a listing crashes |
| Feedback.CountAtMostTotal | yolov8/api/main.py:617 | every class's count is part of the total |
| Feedback.AllDeniedTotalZero | yolov8/api/main.py:606-617 | when every listing fails, the total is 0 |
| Predict.InferEach | yolov8/predict.py:94-99 | a success has one vector per path, each with one entry per class |
| Predict.InferEachSpec | yolov8/predict.py:94-99 | the run succeeds exactly when the classifier answers for each path, and vector i is its answer for path i |
| Predict.IndividualOf | yolov8/predict.py:101-107 | an image's entry is its path, its first argmax class and the maximum probability |
| Predict.Individuals | yolov8/predict.py:96-107 | one entry per path, in input order; each entry's meaning is stated by `Predict.IndividualOf`, and for the whole call by `Predict.EnsemblePredictOutcome` |
| Predict.EnsemblePredictOutcome | yolov8/predict.py:70-158 | raises `NoImages` exactly on an empty list and fails exactly when some image fails; a success counts and lists the paths, has each image's own entry in order, and `is_confident` is exactly confidence >= threshold; the final decision is stated by `Predict.EnsemblePredictDecision` |
| Predict.EnsemblePredictDecision | yolov8/predict.py:110-131 | on success every path was answered, vector i is path i's answer, and the final class is the first class of highest value in the mean, max or vote aggregate of those vectors (mean for any other strategy), with that value as its confidence |
| Predict.EnsemblePredict | yolov8/predict.py:70-158 | the method answers `EnsemblePredictOutcome` |
| Predict.IndividualsSnoc | yolov8/predict.py:96-107 | one more answered path extends the vectors and the entries by one |
| Predict.CollectPredictions | yolov8/predict.py:96-107 | the loop collects `InferEach` and, on success, `Individuals` |
| Predict.EntryOf | yolov8/predict.py:222-238 | an entry carries its path and decision; its meaning (the top-1 class and probability of that path's vector) is proved by `Predict.PredictionOf` and `Predict.EntriesAll` |
| Predict.PredictionOf | yolov8/predict.py:213-238 | an entry holds the top-1 class and probability of its vector |
| Predict.BatchesFlatten | yolov8/predict.py:208-209 | the slices put back together are the input |
| Predict.BatchesSizes | yolov8/predict.py:208-209 | every slice holds `batch_size` paths except the last, which holds 1 to `batch_size` |
| Predict.BatchOutcome | yolov8/predict.py:199-242 | a zero batch size raises, a negative one returns nothing, and a positive one answers `PredictAll` (one prediction per path, or a raise) whatever its value |
| Predict.PredictAll | yolov8/predict.py:208-240 | one prediction per path, or a raise |
| Predict.PredictAllSpec | yolov8/predict.py:208-240 | succeeds exactly when the classifier answers for every path, and prediction i is built from path i's vector |
| Predict.Decisions | yolov8/predict.py:213-220 | one decision per result |
| Predict.DecisionsAt | yolov8/predict.py:213-220 | decision i is the decision for result i |
| Predict.DecisionsConcat | yolov8/predict.py:210-240 | decisions of joined results are the joined decisions |
| Predict.Entries | yolov8/predict.py:212-240 | one entry per path |
| Predict.EntriesAt | yolov8/predict.py:212-240 | entry i is built from path i and decision i |
| Predict.EntriesAll | yolov8/predict.py:212-240 | every entry is the prediction of its own path's vector |
| Predict.EntriesConcat | yolov8/predict.py:208-240 | entries of two runs side by side are the entries of the joined run |
| Predict.InferEachShift | yolov8/predict.py:209-210 | running a slice extends a run over the paths before it |
| Predict.InferEachExtend | yolov8/predict.py:209-210 | the vectors of a slice extend the vectors of the prefix before it |
| Predict.BatchAdvance | yolov8/predict.py:209-240 | an answered slice extends both the vectors and the entries |
| Predict.PredictAllStops | yolov8/predict.py:210 | a slice on which the classifier raises makes the whole call raise |
| Predict.BatchesStep | yolov8/predict.py:208-209 | each loop pass takes the next slice |
| Predict.BatchStateDone | yolov8/predict.py:208-242 | at the end the slices are all the slices and the entries are `PredictAll` |
| Predict.NextBatch | yolov8/predict.py:209-240 | one pass classifies the next slice and either raises for the whole call or keeps the loop state |
| Predict.RunBatch | yolov8/predict.py:210 | `model(batch_paths)` is one vector per path in order, or a raise |
| Predict.RunBatches | yolov8/predict.py:208-240 | the loop answers `PredictAll` and walks through exactly the slices |
| Predict.PredictBatch | yolov8/predict.py:199-242 | the method answers `BatchOutcome` |
| Rename.NewPathLength | yolov8/predict.py:296-297 | the new path is longer than the old one, so never equal to it |
| Rename.NewPathName | yolov8/predict.py:296-297 | the new path stays in the same directory, named `<stem>_<label><suffix>` |
| Rename.MoveSpec | yolov8/predict.py:301 | a move onto a free name takes the contents along, removes the old name and keeps every other file |
| Rename.FileSystem.constructor | yolov8/predict.py:278 | the file system holds the given files |
| Rename.RenameFilesByPrediction | yolov8/predict.py:278-311 | the loop leaves exactly the file system and records of `RenameAll` |
| Rename.StepSpec | yolov8/predict.py:286-311 | a move happens exactly when the image exists and the new name is free; the label is the short name when asked and known, else the Korean name |
| Rename.RenameAllKeepsCount | yolov8/predict.py:278-311 | the pass keeps the number of files and records at most one move per prediction |
| Rename.RenameAllNeverOverwrites | yolov8/predict.py:300-301 | a file that no recorded move took away keeps its contents |
| Rename.Records | yolov8/predict.py:302-306 | one possible record per prediction |
| Rename.RenamedRecords | yolov8/predict.py:300-306 | the records are a subsequence of the predictions' records, in prediction order |
| Summary.PrintSummary | yolov8/predict.py:314-332 | nothing for an empty list; otherwise the total, the confident count and the class counts of one pass |
| Summary.IncrementCounts | yolov8/predict.py:330 | counting one more class raises its count by one and leaves the others |
| Summary.IncrementShape | yolov8/predict.py:330 | counting keeps the keys distinct and the counts positive |
| Summary.KeyPresence | yolov8/predict.py:330 | a positive count has an entry; a missing entry counts zero |
| Summary.CountClassesSpec | yolov8/predict.py:325-332 | each class is listed once, with the number of predictions naming it; the counts are positive and sum to the number of predictions |
| Summary.CountOfAt | yolov8/predict.py:330 | entry i's count is the count of its key |
| Summary.ListedIffNamed | yolov8/predict.py:325-332 | a class is listed exactly when some prediction names it |
| Summary.ConfidentCountSpec | yolov8/predict.py:326-332 | the confident count is the number of confident positions, at most the total |
| DataPrepare.StripStart | yolov8/utils/data_prepare.py:87 | drops exactly the leading whitespace |
| DataPrepare.StripEnd | yolov8/utils/data_prepare.py:87 | drops exactly the trailing whitespace |
| DataPrepare.StripSpec | yolov8/utils/data_prepare.py:87 | the stripped text is a slice of the input with only whitespace around it and no whitespace at either end |
| DataPrepare.StripUnchanged | yolov8/utils/data_prepare.py:87 | text without whitespace at either end is unchanged |
| DataPrepare.StripIdempotent | yolov8/utils/data_prepare.py:87 | stripping twice changes nothing |
| DataPrepare.FirstContainedSpec | yolov8/utils/data_prepare.py:93-96 | no hit exactly when no key occurs in the text; a hit is the value of the first key that occurs |
| DataPrepare.MappingTargetsAreClasses | yolov8/utils/data_prepare.py:18-150 | every mapped value is one of the nine classes, and the class list is the service's identifier list |
| DataPrepare.ExactKeyWins | yolov8/utils/data_prepare.py:87-91 | an exact key yields its own value, even when an earlier key also occurs in the text |
| DataPrepare.MapTypeToClassSpec | yolov8/utils/data_prepare.py:85-98 | without an exact key the answer is the value of the first key occurring in the stripped text, and None exactly when no key occurs |
| DataPrepare.MapsIntoClasses | yolov8/utils/data_prepare.py:85-98 | every answer is one of the nine classes |
| DataPrepare.TypeMappingDistinct | yolov8/utils/data_prepare.py:18-57 | no key of TYPE_MAPPING is written twice |
| DataPrepare.DistinctByShape | yolov8/utils/data_prepare.py:18-57 | each pair of keys differs |
| DataPrepare.FirstExisting | yolov8/utils/data_prepare.py:178-184 | the hit is `base/<id><ext>` for the first extension in list order whose file exists; no hit means no such file exists |
| DataPrepare.FindFirst | yolov8/utils/data_prepare.py:180-184 | the early-exit loop finds `FirstExisting` |
| DataPrepare.FindImageById | yolov8/utils/data_prepare.py:176-184 | the seven extensions are tried in order and the first existing file is the answer |
| DataPrepare.ClassifyRow | yolov8/utils/data_prepare.py:166-191 | one row's outcome is `Place` |
| DataPrepare.Placements | yolov8/utils/data_prepare.py:165-191 | one outcome per row |
| DataPrepare.PlaceSpec | yolov8/utils/data_prepare.py:166-191 | an unmapped row records its type; a mapped row whose path cell names an existing file, or whose site id finds one, is placed with that file in the class its type maps to; an image not found is reported by its path or its site id; a mapped row with neither column is skipped |
| DataPrepare.CollectSnoc | yolov8/utils/data_prepare.py:165-191 | one more row adds its outcome |
| DataPrepare.Accumulate | yolov8/utils/data_prepare.py:169-191 | the storing branches of the loop body add one outcome |
| DataPrepare.CollectImages | yolov8/utils/data_prepare.py:160-191 | the row loop leaves exactly the class lists, unmapped set and missing list of `Collect` |
| DataPrepare.SizeSumEmpty | yolov8/utils/data_prepare.py:160 | every class list starts empty |
| DataPrepare.SizeSumStep | yolov8/utils/data_prepare.py:188-189 | one more placement grows the class lists by one when it places a row |
| DataPrepare.ClassesDistinct | yolov8/utils/data_prepare.py:140-150 | the nine classes are distinct |
| DataPrepare.PlacementsInClasses | yolov8/utils/data_prepare.py:166-189 | every placed row names one of the nine classes |
| DataPrepare.BucketsHoldPlacedRows | yolov8/utils/data_prepare.py:188-189 | no placed row is lost or counted twice: the class list sizes add up to the placed rows |
| DataPrepare.BucketMembers | yolov8/utils/data_prepare.py:188-189 | an item is in a class list exactly when some row was placed there with it |
| DataPrepare.UnmappedMembers | yolov8/utils/data_prepare.py:169-171 | a type is in the unmapped set exactly when some row was unmapped with it |
| DataPrepare.MissingMembers | yolov8/utils/data_prepare.py:190-191 | an entry is in the missing list exactly when some row reported it |
| DataPrepare.CollectSpec | yolov8/utils/data_prepare.py:160-191 | every class has its own per-class list, and there are no other keys |
| DataPrepare.CollectBucket | yolov8/utils/data_prepare.py:160-191 | each class's list is its per-class list |
| DataPrepare.CollectKeys | yolov8/utils/data_prepare.py:160 | the keys are the nine classes |
| Dataset.Trunc | yolov8/utils/data_prepare.py:213 | `int()` truncates toward zero: the result lies within 1 of the input, on the same side of zero, and no farther from zero than the input |
| Dataset.SliceBound | yolov8/utils/data_prepare.py:214-215 | a slice bound is clamped into [0, n], negatives counting from the end |
| Dataset.TrainPart | yolov8/utils/data_prepare.py:214 | the train part has `split_idx` images |
| Dataset.ValPart | yolov8/utils/data_prepare.py:215 | the val part has the rest |
| Dataset.SplitSpec | yolov8/utils/data_prepare.py:213-215 | train followed by val is the shuffled list, so together they hold each image exactly once |
| Dataset.SplitPointSpec | yolov8/utils/data_prepare.py:213 | for a ratio in [0, 1] the cut is floor(len * ratio) and within the list; for a ratio of at least 1 everything is train |
| Dataset.Random.constructor | yolov8/utils/data_prepare.py:126 | a seeded generator starts at the head of its stream |
| Dataset.Random.RandBelow | yolov8/utils/data_prepare.py:212 | a draw is below its bound and consumes one value of the stream |
| Dataset.Shuffle | yolov8/utils/data_prepare.py:212 | the in-place shuffle is a permutation |
| Dataset.Jobs | yolov8/utils/data_prepare.py:218-224 | one copy per image |
| Dataset.JobsAt | yolov8/utils/data_prepare.py:217-224 | job i copies image i to `<output>/<split>/<class>/<idx>_<name>` |
| Dataset.CopyImages | yolov8/utils/data_prepare.py:218-224 | the copy loop yields `CopyAll` |
| Dataset.PutAllKeys | yolov8/utils/data_prepare.py:218-224 | copying adds exactly the jobs' destinations |
| Dataset.PutAllSources | yolov8/utils/data_prepare.py:218-224 | each destination holds its earlier copy or the source of a job aimed at it |
| Dataset.PutAllDistinct | yolov8/utils/data_prepare.py:218-224 | with distinct destinations each destination holds its own source |
| Dataset.CopyAllHas | yolov8/utils/data_prepare.py:218-224 | every image gets a copy |
| Dataset.CopyAllFrom | yolov8/utils/data_prepare.py:218-224 | every copy is an earlier one or one of the images |
| Dataset.CopyAllSource | yolov8/utils/data_prepare.py:218-224 | every destination after a copy pass holds its earlier copy or the image of one of the copied items |
| Dataset.CopyAllDistinct | yolov8/utils/data_prepare.py:218-224 | with distinct destinations each image's copy is that image |
| Dataset.CopyAllGrows | yolov8/utils/data_prepare.py:218-224 | copying never removes a destination |
| Dataset.SplitClass | yolov8/utils/data_prepare.py:212-224 | the shuffled list is cut into train and val, which hold every image once, with sizes `split_idx` and the rest; both are copied |
| Dataset.SplitClassCovers | yolov8/utils/data_prepare.py:212-224 | every image of the class has a train or val copy |
| Dataset.SplitClassSources | yolov8/utils/data_prepare.py:212-224 | every copy is an earlier one or an image of the class |
| Dataset.CountsAddUp | yolov8/utils/data_prepare.py:226-228 | train and val totals together count every image once |
| Dataset.CountsStep | yolov8/utils/data_prepare.py:226-228 | each class adds its own train and val sizes to the totals |
| Dataset.SplitAllStep | yolov8/utils/data_prepare.py:207-228 | splitting one more class extends coverage and keeps every copy an image |
| Dataset.CoversEmpty | yolov8/utils/data_prepare.py:208-210 | an empty class is skipped and needs no copies |
| Dataset.SplitAll | yolov8/utils/data_prepare.py:205-228 | the totals are the sums of the per-class train and val sizes, every image has a copy, and every copy is one of the images |
| Dataset.ImageCountIsSizeSum | yolov8/utils/data_prepare.py:160-191 | the class lists hold as many images as the per-class lists |
| Dataset.TotalsCountPlaced | yolov8/utils/data_prepare.py:160-228 | train plus val equals the number of placed rows |
| Dataset.ImagesExist | yolov8/utils/data_prepare.py:188-189 | every collected image exists |
| Dataset.PrepareClassificationDataset | yolov8/utils/data_prepare.py:101-230 | stops exactly when the type column is missing; otherwise reports the unmapped types and missing images of the row loop, totals that add up to the placed rows, a copy of every image, and only copies of existing images |

## Left out

- Paths: only '/' separates path components (POSIX `pathlib`). On Windows, `pathlib` also splits at a backslash, so a name such as `x\.jpg` that the model accepts would be rejected there.
- The YOLO network, `predict_single_image` and `predict_single_with_probs`: the classifier is an abstract partial function from input to probability vector.
- The full response shaping of `predict_single_image` (top-5 taken from the model's own `probs.top5`): `/predict` and `predict_batch` are modelled on the first argmax and the top-5 of the vector, ranked as the ensembles rank it.
- `round(x, 4)`, float arithmetic and processing times: reals are exact; no rounding or timing is modelled.
- Messages, log lines, `print`, the `timestamp` fields and the response `success` flags: they do not affect any decision. The feedback timestamp is a parameter.
- FastAPI routing, CORS, pydantic schemas, async/await, concurrency and the startup hook: transport plumbing.
- boto3 internals: `upload_to_s3` is a put that may fail; a listing returns a key count, no count, a client error or another error. The 1000-key page cap of `list_objects_v2` and the `ContentType` argument are not modelled.
- `datetime.now()`, `uuid4()`: the timestamp is a parameter and a uuid is a counter never used before.
- The duplicate label tables of `predict.py` (identical to the service's tables).
- The rename loop in `main()` of `predict.py` (yolov8/predict.py:441-452): it shares only the `<stem>_<label><suffix>` naming and the no-overwrite rule with `rename_files_by_prediction`. It labels every image with the short name of the ensemble's one final class, whatever `use_short_name` says, and it records and returns nothing.
- `predict_single`, `predict_directory`, `save_results`, `print_ensemble_result`, `load_model(path)` of `predict.py`: model calls, globbing, JSON and printing.
- Predict.RunBatches: the inner `for result, img_path in zip(...)` loop of `predict_batch` is modelled as appending the slice's entries in one step.
- Ensemble.TopK: picks the lowest index among ties; its contract does not state that order, because numpy's reversed unstable `argsort` leaves it unspecified. Lists from one sort on one vector are still compared as equal (`EnsembleFacts.SingleImageMeanOrMax`), which holds for any fixed tie order.
- ApiFacts.SingleImageEnsembleIsPredict: does not claim that the one-image ensemble and `/predict` return the same top-5 list, because `/predict` takes `probs.top5` and the ensemble an `argsort`, which may order equal probabilities differently (one `.jpg` upload under `mean` whose vector is `[0.5, 0.5, 0, ...]`).
- The sorted display of `print_summary`: only the tally is modelled.
- `load_metadata` and pandas: the survey is given as rows of strings. Only the image-file cell can be absent (`Row.imageCell`), standing for NaN.
- DataPrepare.Place: an image-file cell is either a string or absent (NaN), and an absent one goes on to the site-id search. A cell of any other type makes `image_base / row[image_column]` raise `TypeError` in the source (yolov8/utils/data_prepare.py:175); that cell and that raise are not modelled.
- The type and site-id cells are passed through `str()` (yolov8/utils/data_prepare.py:87, 178); the model takes them as the strings `str()` gives and does not model `str()` of numbers or NaN.
- `mkdir` of the output and fallback folders: directories are not modelled; copies are a map from destination to source.
- `random.seed` and the Mersenne Twister: the generator is an arbitrary stream of numbers and `randbelow(n)` is the next number modulo n.
- pathlib normalisation beyond the last '/' and `parent / name` (no "." or ".." parts, no repeated separators).
- File existence: a set of existing paths; `shutil.copy2` metadata is not modelled.
- Rename: a target that already exists only prints a message and is modelled as doing nothing.
- Dataset.SplitAll: requires every class to be a key, as the source builds the dictionary from the class list (proved by `DataPrepare.CollectKeys`).
- Python `str.lower()` outside ASCII: lower-casing is modelled on ASCII letters; no other character lowers to an allowed-extension character.
- `str.strip()` whitespace is Python's `isspace` set of characters.
