/**
 * The feedback endpoints (yolov8/api/main.py:504-627): a corrected image is
 * stored under `feedback/<corrected class>/<timestamp>_<stem><ext>` in the
 * bucket, or under the same name in the local `feedback_local` folder when
 * the upload fails; the statistics count the stored objects per class.
 * The bucket is abstract: a put that succeeds or not, and a listing per
 * prefix that answers a key count, an access error, or raises.
 */
module Feedback {
  import opened Wrappers
  import opened Paths
  import opened Uploads
  import opened Api
  import Labels

  /** `<timestamp>_<stem><lower-cased suffix>`: the stored object's name. */
  function ObjectName(ts: string, filename: string): string {
    ts + "_" + Stem(filename) + Lower(Suffix(filename))
  }

  /** The bucket prefix of one class. */
  function Prefix(c: string): string {
    "feedback/" + c + "/"
  }

  /** The bucket key of a corrected image. */
  function FeedbackKey(corrected: string, ts: string, filename: string): string {
    Prefix(corrected) + ObjectName(ts, filename)
  }

  /** The fallback path `feedback_local/<corrected>/<name>`. */
  function LocalPath(corrected: string, ts: string, filename: string): string {
    "feedback_local/" + corrected + "/" + ObjectName(ts, filename)
  }

  /** A successful answer: `success` is always true there; `s3Key` is
      absent when the image went to the local folder. */
  datatype FeedbackResponse = FeedbackResponse(s3Key: Option<string>, originalClass: string, correctedClass: string)

  /** What `/feedback` answers. `uploadOk` is what `upload_to_s3` returns,
      `copyOk` whether the local copy completes. */
  function FeedbackOutcome(u: Upload, original: string, corrected: string, ts: string, uploadOk: bool, copyOk: bool)
    : (r: Result<FeedbackResponse, ApiError>)
    ensures r.Success? ==> ValidateImage(u.filename) && corrected in Labels.Keys(Labels.ClassNamesKr) && u.write.Saved?
    ensures r.Success? ==> r.value.originalClass == original && r.value.correctedClass == corrected
    ensures r.Success? ==> (r.value.s3Key.Some? <==> uploadOk)
    ensures r.Success? && uploadOk ==> r.value.s3Key == Some(FeedbackKey(corrected, ts, u.filename))
    ensures !ValidateImage(u.filename) ==> r == Failure(BadRequest(InvalidFileType(u.filename)))
    ensures ValidateImage(u.filename) && corrected !in Labels.Keys(Labels.ClassNamesKr) ==>
      r == Failure(BadRequest(InvalidCorrectedClass(corrected)))
    ensures r.Failure? && r.error.ServerError? ==> r.error.cause in {OpenFailed, WriteFailed, CopyFailed}
  {
    if !ValidateImage(u.filename) then Failure(BadRequest(InvalidFileType(u.filename)))
    else if corrected !in Labels.Keys(Labels.ClassNamesKr) then Failure(BadRequest(InvalidCorrectedClass(corrected)))
    else StoreOutcome(u, original, corrected, ts, uploadOk, copyOk)
  }

  /** What `/feedback` answers once both checks passed. */
  function StoreOutcome(u: Upload, original: string, corrected: string, ts: string, uploadOk: bool, copyOk: bool)
    : (r: Result<FeedbackResponse, ApiError>)
    ensures r.Success? ==> u.write.Saved? && r.value.originalClass == original && r.value.correctedClass == corrected
    ensures r.Success? ==> (r.value.s3Key.Some? <==> uploadOk)
    ensures r.Failure? ==> r.error.ServerError?
    ensures r == Failure(ServerError(OpenFailed)) <==> u.write.OpenRaised?
    ensures r == Failure(ServerError(WriteFailed)) <==> u.write.WriteRaised?
    ensures r == Failure(ServerError(CopyFailed)) <==> u.write.Saved? && !uploadOk && !copyOk
  {
    if u.write.OpenRaised? then Failure(ServerError(OpenFailed))
    else if u.write.WriteRaised? then Failure(ServerError(WriteFailed))
    else if uploadOk then Success(FeedbackResponse(Some(FeedbackKey(corrected, ts, u.filename)), original, corrected))
    else if copyOk then Success(FeedbackResponse(None, original, corrected))
    else Failure(ServerError(CopyFailed))
  }

  /** The bucket and the local fallback folder, each a map from key or path
      to the stored bytes. */
  class FeedbackStore {
    var bucket: map<string, seq<bv8>>
    var local: map<string, seq<bv8>>

    constructor()
      ensures bucket == map[] && local == map[]
    {
      bucket := map[];
      local := map[];
    }

    /** `upload_to_s3`: stores the object when the client call succeeds;
        every exception becomes `false`. */
    method Put(key: string, content: seq<bv8>, ok: bool) returns (stored: bool)
      modifies this
      ensures stored == ok
      ensures bucket == if ok then old(bucket)[key := content] else old(bucket)
      ensures local == old(local)
    {
      if ok {
        bucket := bucket[key := content];
      }
      stored := ok;
    }

    /** `shutil.copy` into the local folder; on failure it raises. */
    method Copy(path: string, content: seq<bv8>, ok: bool) returns (copied: bool)
      modifies this
      ensures copied == ok
      ensures local == if ok then old(local)[path := content] else old(local)
      ensures bucket == old(bucket)
    {
      if ok {
        local := local[path := content];
      }
      copied := ok;
    }
  }

  /** `submit_feedback`: both checks before anything is saved; the saved
      upload goes to the bucket or, failing that, to the local folder; the
      temporary file is removed in `finally`, and stays only when its
      removal fails. */
  method SubmitFeedback(dir: TempDir, store: FeedbackStore, u: Upload, original: string, corrected: string,
                        ts: string, uploadOk: bool, copyOk: bool, unlinkOk: TempPath -> bool)
    returns (r: Result<FeedbackResponse, ApiError>, ghost leaked: Option<TempPath>, ghost recorded: Option<TempPath>)
    requires dir.Valid()
    modifies dir, store
    ensures dir.Valid()
    ensures r == FeedbackOutcome(u, original, corrected, ts, uploadOk, copyOk)
    ensures r.Failure? && r.error.BadRequest? ==> unchanged(dir) && unchanged(store)
    ensures store.bucket == if r.Success? && r.value.s3Key.Some?
      then old(store.bucket)[FeedbackKey(corrected, ts, u.filename) := u.content] else old(store.bucket)
    ensures store.local == if r.Success? && r.value.s3Key.None?
      then old(store.local)[LocalPath(corrected, ts, u.filename) := u.content] else old(store.local)
    ensures leaked.Some? <==> r == Failure(ServerError(WriteFailed))
    ensures recorded.Some? ==> ValidateImage(u.filename) && u.write.Saved?
    ensures leaked.Some? ==> leaked.value !in old(dir.files)
    ensures recorded.Some? ==> recorded.value !in old(dir.files)
    ensures dir.files == old(dir.files) + Opt(leaked) + Stuck(Opt(recorded), unlinkOk)
  {
    if !ValidateImage(u.filename) || corrected !in Labels.Keys(Labels.ClassNamesKr) {
      assert Stuck(Opt(None), unlinkOk) == {};
      r := FeedbackOutcome(u, original, corrected, ts, uploadOk, copyOk);
      return r, None, None;
    }
    r, leaked, recorded := SaveAndStore(dir, store, u, original, corrected, ts, uploadOk, copyOk, unlinkOk);
  }

  /** `submit_feedback` once both checks passed. */
  method SaveAndStore(dir: TempDir, store: FeedbackStore, u: Upload, original: string, corrected: string,
                      ts: string, uploadOk: bool, copyOk: bool, unlinkOk: TempPath -> bool)
    returns (r: Result<FeedbackResponse, ApiError>, ghost leaked: Option<TempPath>, ghost recorded: Option<TempPath>)
    requires dir.Valid()
    modifies dir, store
    ensures dir.Valid()
    ensures r == StoreOutcome(u, original, corrected, ts, uploadOk, copyOk)
    ensures store.bucket == if u.write.Saved? && uploadOk
      then old(store.bucket)[FeedbackKey(corrected, ts, u.filename) := u.content] else old(store.bucket)
    ensures store.local == if u.write.Saved? && !uploadOk && copyOk
      then old(store.local)[LocalPath(corrected, ts, u.filename) := u.content] else old(store.local)
    ensures leaked.Some? <==> r == Failure(ServerError(WriteFailed))
    ensures recorded.Some? <==> u.write.Saved?
    ensures leaked.Some? ==> leaked.value !in old(dir.files)
    ensures recorded.Some? ==> recorded.value !in old(dir.files)
    ensures dir.files == old(dir.files) + Opt(leaked) + Stuck(Opt(recorded), unlinkOk)
  {
    var path;
    path, leaked := dir.Save(u);
    recorded := path;
    StuckOpt(recorded, unlinkOk);
    if path.None? {
      r := if u.write.OpenRaised? then Failure(ServerError(OpenFailed)) else Failure(ServerError(WriteFailed));
      return;
    }
    leaked := None;
    r := StoreAndRemove(dir, store, path.value, u, original, corrected, ts, uploadOk, copyOk, unlinkOk(path.value));
  }

  /** The `try` body of `submit_feedback` once the temporary file `p` is
      written: the upload, and on its failure the copy into the local
      folder; then the `finally` removal of `p`, which fails when
      `unlinkOk` is false. */
  method StoreAndRemove(dir: TempDir, store: FeedbackStore, p: TempPath, u: Upload, original: string,
                        corrected: string, ts: string, uploadOk: bool, copyOk: bool, unlinkOk: bool)
    returns (r: Result<FeedbackResponse, ApiError>)
    requires dir.Valid() && u.write.Saved?
    modifies dir, store
    ensures dir.Valid()
    ensures r == StoreOutcome(u, original, corrected, ts, uploadOk, copyOk)
    ensures store.bucket == if uploadOk
      then old(store.bucket)[FeedbackKey(corrected, ts, u.filename) := u.content] else old(store.bucket)
    ensures store.local == if !uploadOk && copyOk
      then old(store.local)[LocalPath(corrected, ts, u.filename) := u.content] else old(store.local)
    ensures dir.files == if unlinkOk then old(dir.files) - {p} else old(dir.files)
  {
    var key := FeedbackKey(corrected, ts, u.filename);
    var stored := store.Put(key, u.content, uploadOk);
    if stored {
      r := Success(FeedbackResponse(Some(key), original, corrected));
    } else {
      var copied := store.Copy(LocalPath(corrected, ts, u.filename), u.content, copyOk);
      r := if copied then Success(FeedbackResponse(None, original, corrected)) else Failure(ServerError(CopyFailed));
    }
    dir.Cleanup(p, unlinkOk);
  }

  /** `original_class` is recorded but never checked: whatever it says,
      the outcome is the same apart from the echoed value. */
  lemma OriginalClassUnchecked(u: Upload, o1: string, o2: string, corrected: string, ts: string, uploadOk: bool, copyOk: bool)
    ensures FeedbackOutcome(u, o1, corrected, ts, uploadOk, copyOk).Success?
        == FeedbackOutcome(u, o2, corrected, ts, uploadOk, copyOk).Success?
    ensures FeedbackOutcome(u, o1, corrected, ts, uploadOk, copyOk).Success? ==>
      FeedbackOutcome(u, o1, corrected, ts, uploadOk, copyOk).value.s3Key
        == FeedbackOutcome(u, o2, corrected, ts, uploadOk, copyOk).value.s3Key
  {
  }

  // ------------------------------------------------------------------
  // keys and prefixes
  // ------------------------------------------------------------------

  /** Two '/'-free names followed by '/' agree as soon as one such prefix
      begins the other. */
  lemma SlashTerminatedPrefix(a: string, b: string, t: string)
    requires '/' !in a && '/' !in b
    requires a + "/" <= b + "/" + t
    ensures a == b
  {
    var s := b + "/" + t;
    var p := a + "/";
    assert forall j :: 0 <= j < |b| ==> s[j] == b[j] != '/';
    assert s[|a|] == p[|a|] == '/';
    assert s[|b|] == '/';
    assert forall j :: 0 <= j < |a| ==> p[j] == a[j] != '/';
    assert |a| == |b|;
    assert forall i :: 0 <= i < |a| ==> a[i] == p[i] == s[i] == b[i];
  }

  /** The prefix of class c begins the prefix of `corrected` followed by any
      name exactly when the two classes are the same. */
  lemma PrefixUnderPrefix(c: string, corrected: string, name: string)
    requires '/' !in c && '/' !in corrected
    ensures Prefix(c) <= Prefix(corrected) + name <==> c == corrected
  {
    var key := Prefix(corrected) + name;
    assert key == "feedback/" + (corrected + "/" + name);
    if Prefix(c) <= key {
      assert Prefix(c) == "feedback/" + (c + "/");
      assert c + "/" <= corrected + "/" + name by {
        forall i | 0 <= i < |c + "/"|
          ensures (c + "/")[i] == (corrected + "/" + name)[i]
        {
          assert (c + "/")[i] == Prefix(c)[9 + i] == key[9 + i];
        }
      }
      SlashTerminatedPrefix(c, corrected, name);
    }
  }

  /** A stored key lies under the prefix of class c exactly when c is its
      corrected class, so counting a prefix counts one class's feedback. */
  lemma KeyUnderPrefix(c: string, corrected: string, ts: string, filename: string)
    requires '/' !in c && '/' !in corrected
    ensures Prefix(c) <= FeedbackKey(corrected, ts, filename) <==> c == corrected
  {
    PrefixUnderPrefix(c, corrected, ObjectName(ts, filename));
  }

  /** No class identifier contains '/'. */
  lemma ClassIdsHaveNoSlash()
    ensures forall c :: c in Labels.Keys(Labels.ClassNamesKr) ==> '/' !in c
  {
    Labels.TablesWellFormed();
  }

  /** The stem of a path has no '/'. */
  lemma StemHasNoSlash(p: string)
    ensures '/' !in Stem(p)
  {
    var n := FileName(p);
    if HasSuffix(n) {
      assert forall i :: 0 <= i < |Stem(p)| ==> Stem(p)[i] == n[i];
    }
  }

  /** The stored object keeps the upload's lower-cased extension, so the
      stored name would itself pass the upload check. */
  lemma StoredNameKeepsExtension(corrected: string, ts: string, filename: string)
    requires ValidateImage(filename)
    requires '/' !in corrected && '/' !in ts
    ensures FileName(FeedbackKey(corrected, ts, filename)) == ObjectName(ts, filename)
    ensures Suffix(FeedbackKey(corrected, ts, filename)) == Lower(Suffix(filename))
    ensures ValidateImage(FeedbackKey(corrected, ts, filename))
  {
    var name := ObjectName(ts, filename);
    ObjectNameHasNoSlash(ts, filename);
    var key := FeedbackKey(corrected, ts, filename);
    assert key == ("feedback/" + corrected) + "/" + name;
    FileNameAfterSlash("feedback/" + corrected, name);
    ObjectNameSuffix(ts, filename);
  }

  lemma ObjectNameHasNoSlash(ts: string, filename: string)
    requires '/' !in ts
    ensures '/' !in ObjectName(ts, filename)
  {
    StemHasNoSlash(filename);
    assert '/' !in Suffix(filename);
  }

  lemma ObjectNameSuffix(ts: string, filename: string)
    requires ValidateImage(filename)
    ensures Lower(NameSuffix(ObjectName(ts, filename))) == Lower(Suffix(filename))
    ensures NameSuffix(ObjectName(ts, filename)) == Lower(Suffix(filename))
  {
    var e := Lower(Suffix(filename));
    var name := ObjectName(ts, filename);
    assert name == (ts + "_" + Stem(filename)) + e;
    NameHasExtension(name, e);
    LowerTwice(Suffix(filename));
  }

  lemma NameHasExtension(name: string, e: string)
    requires e in AllowedExtensions
    requires |name| > |e| && name[|name| - |e|..] == e
    ensures Lower(NameSuffix(name)) == e
  {
    AllowedExtensionsShape();
    assert Lower(e) == e;
    LowerFrom(name, |name| - |e|);
    NameSuffixIs(name, e);
  }

  // ------------------------------------------------------------------
  // /feedback/stats
  // ------------------------------------------------------------------

  /** What the bucket listing of one prefix does: answer with its
      `KeyCount` (possibly missing), raise a client error, or raise
      anything else. */
  datatype ListOutcome = Listed(keyCount: Option<nat>) | AccessDenied | Crashed

  datatype ClassStat = ClassStat(className: string, count: nat, classNameKr: string, accessFailed: bool)

  datatype StatsResponse = StatsOk(stats: seq<ClassStat>, total: nat) | StatsFailed

  /** One class's entry: the key count, 0 when missing, or 0 and an error
      flag when access failed. */
  function StatOf(id: string, o: ListOutcome): (s: ClassStat)
    requires !o.Crashed?
    ensures s.className == id && s.classNameKr == Labels.KoreanName(id)
    ensures s.accessFailed <==> o.AccessDenied?
    ensures o.Listed? && o.keyCount.Some? ==> s.count == o.keyCount.value
    ensures !(o.Listed? && o.keyCount.Some?) ==> s.count == 0
  {
    match o
    case Listed(k) => ClassStat(id, if k.Some? then k.value else 0, Labels.KoreanName(id), false)
    case AccessDenied => ClassStat(id, 0, Labels.KoreanName(id), true)
  }

  /** `sum(s.get("count", 0) for s in stats.values())`. */
  function TotalCount(stats: seq<ClassStat>): nat {
    if stats == [] then 0 else TotalCount(stats[..|stats| - 1]) + stats[|stats| - 1].count
  }

  /** `get_feedback_stats`: one listing per class in table order; an
      exception other than a client error ends the whole call with
      `success` false. */
  method FeedbackStats(clientOk: bool, list: string -> ListOutcome) returns (r: StatsResponse)
    ensures r.StatsFailed? <==> (!clientOk || exists c :: c in Labels.Keys(Labels.ClassNamesKr) && list(Prefix(c)).Crashed?)
    ensures r.StatsOk? ==> r.stats == StatsOf(Labels.Keys(Labels.ClassNamesKr), list)
    ensures r.StatsOk? ==> r.total == TotalCount(r.stats)
  {
    if !clientOk {
      return StatsFailed;
    }
    r := CollectStats(Labels.Keys(Labels.ClassNamesKr), list);
  }

  /** One entry per class, in the given order. */
  function StatsOf(ids: seq<string>, list: string -> ListOutcome): (stats: seq<ClassStat>)
    requires forall c :: c in ids ==> !list(Prefix(c)).Crashed?
    ensures |stats| == |ids|
    ensures forall i :: 0 <= i < |ids| ==> stats[i] == StatOf(ids[i], list(Prefix(ids[i])))
  {
    seq(|ids|, i requires 0 <= i < |ids| => StatOf(ids[i], list(Prefix(ids[i]))))
  }

  /** The loop of `get_feedback_stats` over the identifiers `ids`. */
  method CollectStats(ids: seq<string>, list: string -> ListOutcome) returns (r: StatsResponse)
    ensures r.StatsFailed? <==> exists c :: c in ids && list(Prefix(c)).Crashed?
    ensures r.StatsOk? ==> r.stats == StatsOf(ids, list) && r.total == TotalCount(r.stats)
  {
    var stats: seq<ClassStat> := [];
    for i := 0 to |ids|
      invariant |stats| == i
      invariant forall k :: 0 <= k < i ==> !list(Prefix(ids[k])).Crashed?
      invariant forall k :: 0 <= k < i ==> stats[k] == StatOf(ids[k], list(Prefix(ids[k])))
    {
      var o := list(Prefix(ids[i]));
      if o.Crashed? {
        return StatsFailed;
      }
      stats := stats + [StatOf(ids[i], o)];
    }
    r := StatsOk(stats, TotalCount(stats));
  }

  /** Every class's count is part of the total. */
  lemma {:induction false} CountAtMostTotal(stats: seq<ClassStat>, i: nat)
    requires i < |stats|
    ensures stats[i].count <= TotalCount(stats)
    decreases |stats|
  {
    if i < |stats| - 1 {
      CountAtMostTotal(stats[..|stats| - 1], i);
    }
  }

  /** When every listing is denied, the total is 0. */
  lemma {:induction false} AllDeniedTotalZero(stats: seq<ClassStat>)
    requires forall i :: 0 <= i < |stats| ==> stats[i].count == 0
    ensures TotalCount(stats) == 0
  {
    if stats != [] {
      AllDeniedTotalZero(stats[..|stats| - 1]);
    }
  }
}
