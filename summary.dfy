/**
 * The tally behind `print_summary` (yolov8/predict.py:314-340): the number of
 * predictions, how many of them are confident, and a per-class count keyed by
 * Korean class name in order of first appearance (a Python dict).
 */
module Summary {
  import opened Wrappers
  import opened Predict

  /** `class_counts`: Korean class name -> count, in insertion order. */
  type Counts = seq<(string, nat)>

  datatype Tally = Tally(total: nat, confident: nat, counts: Counts)

  /** No class is counted in two entries. */
  predicate DistinctClasses(t: Counts) {
    forall i, j :: 0 <= i < j < |t| ==> t[i].0 != t[j].0
  }

  /** `class_counts.get(k, 0)`. */
  function CountOf(t: Counts, k: string): nat {
    if t == [] then 0
    else if t[0].0 == k then t[0].1
    else CountOf(t[1..], k)
  }

  /** The sum of all counts. */
  function Sum(t: Counts): nat {
    if t == [] then 0 else t[0].1 + Sum(t[1..])
  }

  /** `class_counts[k] = class_counts.get(k, 0) + 1`: an existing key keeps its
      place, a new key goes at the end. */
  function Increment(t: Counts, k: string): Counts {
    if t == [] then [(k, 1)]
    else if t[0].0 == k then [(k, t[0].1 + 1)] + t[1..]
    else [t[0]] + Increment(t[1..], k)
  }

  /** The Korean class name a prediction is counted under. */
  function ClassOf(p: SinglePrediction): string {
    p.prediction.classNameKr
  }

  /** How many predictions name class `k`: the reference the counts are
      measured against. */
  function Occurrences(preds: seq<SinglePrediction>, k: string): nat {
    if preds == [] then 0
    else Occurrences(preds[..|preds| - 1], k) + (if ClassOf(preds[|preds| - 1]) == k then 1 else 0)
  }

  /** How many predictions are confident. */
  function ConfidentCount(preds: seq<SinglePrediction>): nat {
    if preds == [] then 0
    else ConfidentCount(preds[..|preds| - 1]) + (if preds[|preds| - 1].isConfident then 1 else 0)
  }

  /** The counts after all the predictions, in order. */
  function CountClasses(preds: seq<SinglePrediction>): Counts {
    if preds == [] then []
    else Increment(CountClasses(preds[..|preds| - 1]), ClassOf(preds[|preds| - 1]))
  }

  /** `print_summary` without the printing: nothing for an empty list;
      otherwise the total, the confident count and the class counts, built by
      one pass over the predictions. */
  method PrintSummary(preds: seq<SinglePrediction>) returns (r: Option<Tally>)
    ensures r.None? <==> preds == []
    ensures r.Some? ==> r.value == Tally(|preds|, ConfidentCount(preds), CountClasses(preds))
  {
    if |preds| == 0 {
      return None;
    }
    var classCounts: Counts := [];
    var confidentCount := 0;
    for i := 0 to |preds|
      invariant classCounts == CountClasses(preds[..i])
      invariant confidentCount == ConfidentCount(preds[..i])
    {
      var cls := preds[i].prediction.classNameKr;
      classCounts := Increment(classCounts, cls);
      if preds[i].isConfident {
        confidentCount := confidentCount + 1;
      }
      assert preds[..i + 1][..i] == preds[..i];
    }
    assert preds[..|preds|] == preds;
    return Some(Tally(|preds|, confidentCount, classCounts));
  }

  /** No entry of `t` carries `x`. */
  predicate Absent(t: Counts, x: string) {
    forall i :: 0 <= i < |t| ==> t[i].0 != x
  }

  lemma {:induction false} DistinctTail(t: Counts)
    requires t != [] && DistinctClasses(t)
    ensures DistinctClasses(t[1..]) && Absent(t[1..], t[0].0)
  {
    var rest := t[1..];
    assert forall i :: 0 <= i < |rest| ==> rest[i] == t[i + 1];
  }

  lemma {:induction false} DistinctCons(e: (string, nat), t: Counts)
    requires DistinctClasses(t) && Absent(t, e.0)
    ensures DistinctClasses([e] + t)
  {
    var u := [e] + t;
    assert forall i :: 0 < i < |u| ==> u[i] == t[i - 1];
  }

  /** Incrementing `k` adds no key other than `k`. */
  lemma {:induction false} IncrementAbsent(t: Counts, k: string, x: string)
    requires Absent(t, x) && x != k
    ensures Absent(Increment(t, k), x)
  {
    if t != [] {
      var rest := t[1..];
      assert forall i :: 0 <= i < |rest| ==> rest[i] == t[i + 1];
      var u := Increment(t, k);
      if t[0].0 == k {
        assert forall i :: 0 < i < |u| ==> u[i] == rest[i - 1];
      } else {
        IncrementAbsent(rest, k, x);
        assert forall i :: 0 < i < |u| ==> u[i] == Increment(rest, k)[i - 1];
      }
    }
  }

  /** Counting one more `k` raises k's count by one, leaves every other count
      alone and raises the sum by one. */
  lemma {:induction false} IncrementCounts(t: Counts, k: string)
    ensures CountOf(Increment(t, k), k) == CountOf(t, k) + 1
    ensures forall j :: j != k ==> CountOf(Increment(t, k), j) == CountOf(t, j)
    ensures Sum(Increment(t, k)) == Sum(t) + 1
  {
    if t != [] {
      var u := Increment(t, k);
      if t[0].0 == k {
        assert u[1..] == t[1..];
      } else {
        IncrementCounts(t[1..], k);
        assert u[1..] == Increment(t[1..], k);
      }
    }
  }

  /** Counting one more `k` keeps the keys distinct and every count positive. */
  lemma {:induction false} IncrementShape(t: Counts, k: string)
    requires DistinctClasses(t)
    ensures DistinctClasses(Increment(t, k))
    ensures (forall i :: 0 <= i < |t| ==> t[i].1 > 0) ==>
            forall i :: 0 <= i < |Increment(t, k)| ==> Increment(t, k)[i].1 > 0
  {
    if t != [] {
      var rest := t[1..];
      DistinctTail(t);
      assert forall i :: 0 <= i < |rest| ==> rest[i] == t[i + 1];
      var u := Increment(t, k);
      if t[0].0 == k {
        DistinctCons((k, t[0].1 + 1), rest);
        assert forall i :: 0 < i < |u| ==> u[i] == rest[i - 1];
      } else {
        IncrementShape(rest, k);
        IncrementAbsent(rest, k, t[0].0);
        DistinctCons(t[0], Increment(rest, k));
        assert forall i :: 0 < i < |u| ==> u[i] == Increment(rest, k)[i - 1];
      }
    }
  }

  /** A key with a positive count has an entry; a key without one counts zero. */
  lemma {:induction false} KeyPresence(t: Counts, k: string)
    ensures CountOf(t, k) > 0 ==> exists i :: 0 <= i < |t| && t[i].0 == k
    ensures (forall i :: 0 <= i < |t| ==> t[i].0 != k) ==> CountOf(t, k) == 0
  {
    if t != [] && t[0].0 != k {
      KeyPresence(t[1..], k);
      if CountOf(t, k) > 0 {
        var i :| 0 <= i < |t[1..]| && t[1..][i].0 == k;
        assert t[i + 1].0 == k;
      }
      if forall i :: 0 <= i < |t| ==> t[i].0 != k {
        assert forall i :: 0 <= i < |t[1..]| ==> t[1..][i] == t[i + 1];
      }
    }
  }

  /** The class counts are a correct tally: every class is listed once, with
      the number of predictions naming it; a class no prediction names is not
      listed (every listed count is positive); and the counts add up to the
      number of predictions. */
  lemma {:induction false} CountClassesSpec(preds: seq<SinglePrediction>)
    ensures DistinctClasses(CountClasses(preds))
    ensures forall k :: CountOf(CountClasses(preds), k) == Occurrences(preds, k)
    ensures forall i :: 0 <= i < |CountClasses(preds)| ==> CountClasses(preds)[i].1 > 0
    ensures Sum(CountClasses(preds)) == |preds|
  {
    if preds != [] {
      var init := preds[..|preds| - 1];
      CountClassesSpec(init);
      IncrementCounts(CountClasses(init), ClassOf(preds[|preds| - 1]));
      IncrementShape(CountClasses(init), ClassOf(preds[|preds| - 1]));
    }
  }

  lemma {:induction false} CountOfAt(t: Counts, i: nat)
    requires DistinctClasses(t) && i < |t|
    ensures CountOf(t, t[i].0) == t[i].1
  {
    if i > 0 {
      DistinctTail(t);
      assert t[1..][i - 1] == t[i];
      CountOfAt(t[1..], i - 1);
    }
  }

  /** A class is listed in the summary exactly when some prediction names it. */
  lemma ListedIffNamed(preds: seq<SinglePrediction>, k: string)
    ensures (exists i :: 0 <= i < |CountClasses(preds)| && CountClasses(preds)[i].0 == k) <==>
            Occurrences(preds, k) > 0
  {
    var t := CountClasses(preds);
    CountClassesSpec(preds);
    KeyPresence(t, k);
    if i :| 0 <= i < |t| && t[i].0 == k {
      CountOfAt(t, i);
    }
  }

  /** The confident count is the number of positions holding a confident
      prediction, so it never exceeds the total. */
  lemma {:induction false} ConfidentCountSpec(preds: seq<SinglePrediction>)
    ensures ConfidentCount(preds) == |set i | 0 <= i < |preds| && preds[i].isConfident|
    ensures ConfidentCount(preds) <= |preds|
  {
    if preds != [] {
      var n := |preds| - 1;
      var init := preds[..n];
      ConfidentCountSpec(init);
      var before := set i | 0 <= i < n && init[i].isConfident;
      var after := set i | 0 <= i < |preds| && preds[i].isConfident;
      assert before == set i | 0 <= i < n && preds[i].isConfident;
      if preds[n].isConfident {
        assert after == before + {n};
      } else {
        assert after == before;
      }
    }
  }
}
