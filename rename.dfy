/**
 * Renaming the classified images after their predicted class
 * (`rename_files_by_prediction`, yolov8/predict.py:278-311): `sample.png`
 * becomes `sample_강관주.png` in the same directory, and a file is moved only
 * when it exists and the new name is still free.
 */
module Rename {
  import opened Wrappers
  import opened Paths
  import Labels
  import opened Predict

  type Bytes = seq<bv8>

  /** The regular files of the file system, by path, with their contents. */
  type Files = map<string, Bytes>

  /** One entry of `renamed_files`. */
  datatype RenamedFile = RenamedFile(original: string, renamed: string, classKr: string)

  /** The tag appended to the name: the short display name (falling back to
      the Korean name itself) or the Korean name. */
  function Label(classKr: string, useShortName: bool): string {
    if useShortName then Labels.ShortName(classKr) else classKr
  }

  /** `f"{stem}_{tag}{suffix}"`. */
  function NewName(p: string, tag: string): string {
    Stem(p) + "_" + tag + Suffix(p)
  }

  /** `original_path.parent / new_name`. */
  function NewPath(p: string, tag: string): string {
    Sibling(p, NewName(p, tag))
  }

  /** The new path is the old one with "_" and the tag inserted, so it is
      longer than the old one and never equal to it. */
  lemma NewPathLength(p: string, tag: string)
    ensures |NewPath(p, tag)| == |p| + 1 + |tag|
    ensures NewPath(p, tag) != p
  {
    StemSuffixSplit(p);
  }

  /** When the tag holds no '/', the new path stays in the same directory
      and its file name is stem, "_", tag, suffix. */
  lemma NewPathName(p: string, tag: string)
    requires '/' !in tag
    ensures FileName(NewPath(p, tag)) == Stem(p) + "_" + tag + Suffix(p)
    ensures NewPath(p, tag)[..|NewPath(p, tag)| - |NewName(p, tag)|] == p[..|p| - |FileName(p)|]
  {
    var name := NewName(p, tag);
    StemSuffixSplit(p);
    assert Stem(p) + Suffix(p) == FileName(p);
    assert '/' !in FileName(p);
    assert '/' !in name by {
      forall j | 0 <= j < |name| ensures name[j] != '/' {
        if j < |Stem(p)| {
          assert name[j] == FileName(p)[j];
        } else if j == |Stem(p)| {
        } else if j < |Stem(p)| + 1 + |tag| {
          assert name[j] == tag[j - |Stem(p)| - 1];
        } else {
          assert name[j] == FileName(p)[j - 1 - |tag|];
        }
      }
    }
    SiblingName(p, name);
  }

  /** Where the image of `pred` is to be moved. */
  function Target(pred: SinglePrediction, useShortName: bool): string {
    NewPath(pred.imagePath, Label(pred.prediction.classNameKr, useShortName))
  }

  /** The record a move of the image of `pred` adds. */
  function Record(pred: SinglePrediction, useShortName: bool): RenamedFile {
    RenamedFile(pred.imagePath, Target(pred, useShortName), pred.prediction.classNameKr)
  }

  /** `shutil.move(src, dst)` onto a free name. */
  function Move(files: Files, src: string, dst: string): Files
    requires src in files
  {
    (files - {src})[dst := files[src]]
  }

  /** A move onto a free name takes the contents along, removes the old name,
      keeps the number of files and leaves every other file as it was. */
  lemma MoveSpec(files: Files, src: string, dst: string)
    requires src in files && dst !in files
    ensures var after := Move(files, src, dst);
            dst in after && after[dst] == files[src] && src !in after &&
            |after.Keys| == |files.Keys| &&
            (forall q :: q in files && q != src ==> q in after && after[q] == files[q])
  {
    assert Move(files, src, dst).Keys == files.Keys - {src} + {dst};
  }

  /** What one prediction does to the file system, and the record it adds. */
  function Step(files: Files, pred: SinglePrediction, useShortName: bool): (Files, Option<RenamedFile>) {
    var o := pred.imagePath;
    var n := Target(pred, useShortName);
    if o in files && n !in files then (Move(files, o, n), Some(Record(pred, useShortName)))
    else (files, None)
  }

  /** The whole pass over the predictions, in order: the final file system
      and `renamed_files`. */
  function RenameAll(files: Files, preds: seq<SinglePrediction>, useShortName: bool): (Files, seq<RenamedFile>)
  {
    if preds == [] then (files, [])
    else
      var (before, done) := RenameAll(files, preds[..|preds| - 1], useShortName);
      var (after, moved) := Step(before, preds[|preds| - 1], useShortName);
      (after, done + (if moved.Some? then [moved.value] else []))
  }

  /** A file system the rename pass works on. */
  class FileSystem {
    var files: Files

    constructor (initial: Files)
      ensures files == initial
    {
      files := initial;
    }
  }

  /** `rename_files_by_prediction`: one move per prediction whose image exists
      and whose new name is free, each recorded in order. */
  method RenameFilesByPrediction(fs: FileSystem, preds: seq<SinglePrediction>, useShortName: bool)
    returns (renamed: seq<RenamedFile>)
    modifies fs
    ensures (fs.files, renamed) == RenameAll(old(fs.files), preds, useShortName)
  {
    renamed := [];
    for i := 0 to |preds|
      invariant (fs.files, renamed) == RenameAll(old(fs.files), preds[..i], useShortName)
    {
      ghost var step := Step(fs.files, preds[i], useShortName);
      ghost var done := renamed;
      var original := preds[i].imagePath;
      var classKr := preds[i].prediction.classNameKr;
      var target := NewPath(original, Label(classKr, useShortName));
      if original in fs.files && target !in fs.files {
        fs.files := Move(fs.files, original, target);
        renamed := renamed + [RenamedFile(original, target, classKr)];
      }
      assert fs.files == step.0 && renamed == done + (if step.1.Some? then [step.1.value] else []);
      assert preds[..i + 1][..i] == preds[..i];
    }
    assert preds[..|preds|] == preds;
  }

  /** One step: a move happens exactly when the image exists and the new
      name is free; it takes the image's contents to the new name, removes
      the old name and keeps the number of files; every other file keeps its
      contents. */
  lemma StepSpec(files: Files, pred: SinglePrediction, useShortName: bool)
    ensures var o := pred.imagePath;
            var n := Target(pred, useShortName);
            var (after, moved) := Step(files, pred, useShortName);
            (moved.Some? <==> o in files && n !in files) &&
            (moved.Some? ==> moved.value == Record(pred, useShortName) &&
                             n in after && after[n] == files[o] && o !in after) &&
            (moved.None? ==> after == files) &&
            |after.Keys| == |files.Keys| &&
            (forall q :: q in files && q != o ==> q in after && after[q] == files[q])
  {
    var o := pred.imagePath;
    var n := Target(pred, useShortName);
    if o in files && n !in files {
      MoveSpec(files, o, n);
    }
  }

  /** The pass keeps the number of files, and records at most one move per
      prediction. */
  lemma {:induction false} RenameAllKeepsCount(files: Files, preds: seq<SinglePrediction>, useShortName: bool)
    ensures |RenameAll(files, preds, useShortName).0.Keys| == |files.Keys|
    ensures |RenameAll(files, preds, useShortName).1| <= |preds|
  {
    if preds != [] {
      var before := RenameAll(files, preds[..|preds| - 1], useShortName).0;
      RenameAllKeepsCount(files, preds[..|preds| - 1], useShortName);
      StepSpec(before, preds[|preds| - 1], useShortName);
    }
  }

  /** No file is ever overwritten: a file that no recorded move took away is
      still there at the end with its original contents. */
  lemma {:induction false} RenameAllNeverOverwrites(files: Files, preds: seq<SinglePrediction>, useShortName: bool, q: string)
    requires q in files
    requires forall r :: r in RenameAll(files, preds, useShortName).1 ==> r.original != q
    ensures q in RenameAll(files, preds, useShortName).0
    ensures RenameAll(files, preds, useShortName).0[q] == files[q]
  {
    if preds != [] {
      var (before, done) := RenameAll(files, preds[..|preds| - 1], useShortName);
      var pred := preds[|preds| - 1];
      var (after, moved) := Step(before, pred, useShortName);
      assert forall r :: r in done ==> r in RenameAll(files, preds, useShortName).1;
      RenameAllNeverOverwrites(files, preds[..|preds| - 1], useShortName, q);
      StepSpec(before, pred, useShortName);
      assert moved.Some? ==> moved.value in RenameAll(files, preds, useShortName).1;
    }
  }

  /** The records the moves of all the predictions' images would add. */
  function Records(preds: seq<SinglePrediction>, useShortName: bool): (rs: seq<RenamedFile>)
    ensures |rs| == |preds|
  {
    if preds == [] then []
    else Records(preds[..|preds| - 1], useShortName) + [Record(preds[|preds| - 1], useShortName)]
  }

  /** `idx` picks, in increasing order, the elements of `from` that make up `xs`. */
  ghost predicate Picks<T>(idx: seq<nat>, xs: seq<T>, from: seq<T>) {
    |idx| == |xs| &&
    (forall k :: 0 <= k < |idx| ==> idx[k] < |from| && xs[k] == from[idx[k]]) &&
    (forall k, l :: 0 <= k < l < |idx| ==> idx[k] < idx[l])
  }

  lemma PicksWiden<T>(idx: seq<nat>, xs: seq<T>, from: seq<T>, y: T)
    requires Picks(idx, xs, from)
    ensures Picks(idx, xs, from + [y])
  {
    forall k | 0 <= k < |idx|
      ensures xs[k] == (from + [y])[idx[k]]
    {
    }
  }

  lemma PicksAppend<T>(idx: seq<nat>, xs: seq<T>, from: seq<T>, y: T)
    requires Picks(idx, xs, from)
    ensures Picks(idx + [|from|], xs + [y], from + [y])
  {
    var idx', xs', from' := idx + [|from|], xs + [y], from + [y];
    forall k | 0 <= k < |idx'|
      ensures idx'[k] < |from'| && xs'[k] == from'[idx'[k]]
    {
      if k < |idx| {
        assert idx'[k] == idx[k] && xs'[k] == xs[k];
      }
    }
    forall k, l | 0 <= k < l < |idx'|
      ensures idx'[k] < idx'[l]
    {
      assert idx'[k] == idx[k];
      if l < |idx| {
        assert idx'[l] == idx[l];
      }
    }
  }

  /** Every record comes from one prediction, in prediction order: the
      records are the records of some of the predictions' moves, picked in
      increasing order. */
  lemma {:induction false} RenamedRecords(files: Files, preds: seq<SinglePrediction>, useShortName: bool)
    ensures exists idx: seq<nat> :: Picks(idx, RenameAll(files, preds, useShortName).1, Records(preds, useShortName))
  {
    if preds == [] {
      var none: seq<nat> := [];
      assert Picks(none, RenameAll(files, preds, useShortName).1, Records(preds, useShortName));
    } else {
      var init := preds[..|preds| - 1];
      var last := preds[|preds| - 1];
      var (before, done) := RenameAll(files, init, useShortName);
      var (after, moved) := Step(before, last, useShortName);
      RenamedRecords(files, init, useShortName);
      var rs := Records(init, useShortName);
      var idx: seq<nat> :| Picks(idx, done, rs);
      var result := RenameAll(files, preds, useShortName).1;
      assert Records(preds, useShortName) == rs + [Record(last, useShortName)];
      StepSpec(before, last, useShortName);
      if moved.Some? {
        assert result == done + [Record(last, useShortName)];
        PicksAppend(idx, done, rs, Record(last, useShortName));
        assert Picks(idx + [|rs|], result, Records(preds, useShortName));
      } else {
        assert result == done;
        PicksWiden(idx, done, rs, Record(last, useShortName));
        assert Picks(idx, result, Records(preds, useShortName));
      }
    }
  }
}
