/**
 * The ensemble aggregator: per-image class-probability vectors are combined
 * by `mean`, `max` or `vote`, and the combined vector is turned into a final
 * class (first maximal index), its confidence and a ranked top-5 list.
 * (yolov8/api/main.py:286-327; yolov8/predict.py:109-142 repeats it.)
 * Probabilities are exact reals: float rounding is not modelled.
 */
module Ensemble {
  import opened Wrappers
  import Labels

  /** One probability per class, in the classifier's label order. */
  type Vector = seq<real>

  /** Every vector has n entries (one fixed label set). */
  predicate Rectangular(ps: seq<Vector>, n: nat) {
    forall i :: 0 <= i < |ps| ==> |ps[i]| == n
  }

  function Min(a: int, b: int): int { if a <= b then a else b }

  // ------------------------------------------------------------------
  // argmax and top-k
  // ------------------------------------------------------------------

  /** `np.argmax`: the first (lowest) index holding the largest value. */
  function ArgMax(v: Vector): (k: nat)
    requires |v| > 0
    ensures k < |v|
    ensures forall j :: 0 <= j < |v| ==> v[j] <= v[k]
    ensures forall j :: 0 <= j < k ==> v[j] < v[k]
  {
    ArgMaxOfPrefix(v, |v|)
  }

  /** The argmax of the first `m` entries, scanning left to right and
      replacing the candidate only on a strictly larger value. */
  function ArgMaxOfPrefix(v: Vector, m: nat): (k: nat)
    requires 0 < m <= |v|
    ensures k < m
    ensures forall j :: 0 <= j < m ==> v[j] <= v[k]
    ensures forall j :: 0 <= j < k ==> v[j] < v[k]
  {
    if m == 1 then 0
    else
      var k := ArgMaxOfPrefix(v, m - 1);
      if v[m - 1] > v[k] then m - 1 else k
  }

  /** The argmax is determined by its two defining properties. */
  lemma ArgMaxUnique(v: Vector, k: nat)
    requires k < |v|
    requires forall j :: 0 <= j < |v| ==> v[j] <= v[k]
    requires forall j :: 0 <= j < k ==> v[j] < v[k]
    ensures ArgMax(v) == k
  {
  }

  predicate Distinct(s: seq<nat>) {
    forall i, j :: 0 <= i < j < |s| ==> s[i] != s[j]
  }

  predicate InBounds(v: Vector, s: seq<nat>) {
    forall i :: 0 <= i < |s| ==> s[i] < |v|
  }

  /** Position in `cand` of the first candidate holding the largest value. */
  function BestOf(v: Vector, cand: seq<nat>): (b: nat)
    requires |cand| > 0 && InBounds(v, cand)
    ensures b < |cand|
    ensures forall i :: 0 <= i < |cand| ==> v[cand[i]] <= v[cand[b]]
  {
    if |cand| == 1 then 0
    else
      var b := BestOf(v, cand[..|cand| - 1]);
      assert forall i :: 0 <= i < |cand| - 1 ==> cand[..|cand| - 1][i] == cand[i];
      if v[cand[|cand| - 1]] > v[cand[b]] then |cand| - 1 else b
  }

  /** Removing the entry at position b keeps a distinct sequence distinct and
      loses exactly that entry. */
  lemma RemoveAt(cand: seq<nat>, b: nat)
    requires Distinct(cand) && b < |cand|
    ensures var rest := cand[..b] + cand[b + 1..];
      && Distinct(rest)
      && (forall c :: c in rest <==> c in cand && c != cand[b])
  {
    var rest := cand[..b] + cand[b + 1..];
    forall c | c in cand && c != cand[b] ensures c in rest {
      var i :| 0 <= i < |cand| && cand[i] == c;
      if i < b { assert rest[i] == c; } else { assert rest[i - 1] == c; }
    }
    forall i | 0 <= i < |rest| ensures rest[i] == cand[if i < b then i else i + 1] && rest[i] != cand[b] {
    }
    forall i, j | 0 <= i < j < |rest| ensures rest[i] != rest[j] {
      var i' := if i < b then i else i + 1;
      var j' := if j < b then j else j + 1;
      assert rest[i] == cand[i'] && rest[j] == cand[j'];
    }
  }

  /** Repeated selection of the best remaining candidate, k times. */
  function TopFrom(v: Vector, cand: seq<nat>, k: nat): (r: seq<nat>)
    requires InBounds(v, cand) && Distinct(cand)
    ensures |r| == Min(k, |cand|)
    ensures forall x :: x in r ==> x in cand
    ensures InBounds(v, r) && Distinct(r)
    ensures forall i, j :: 0 <= i < j < |r| ==> v[r[i]] >= v[r[j]]
    ensures forall c :: c in cand && c !in r ==> forall i :: 0 <= i < |r| ==> v[c] <= v[r[i]]
    decreases k
  {
    if k == 0 || cand == [] then []
    else
      var b := BestOf(v, cand);
      var rest := cand[..b] + cand[b + 1..];
      RemoveAt(cand, b);
      assert InBounds(v, rest);
      var tail := TopFrom(v, rest, k - 1);
      TopFromStep(v, cand, b, tail);
      [cand[b]] + tail
  }

  /** The step of TopFrom: the best candidate in front of a ranking of the
      others is a ranking of all. */
  lemma TopFromStep(v: Vector, cand: seq<nat>, b: nat, tail: seq<nat>)
    requires InBounds(v, cand) && b < |cand|
    requires forall i :: 0 <= i < |cand| ==> v[cand[i]] <= v[cand[b]]
    requires forall x :: x in tail ==> x in cand && x != cand[b]
    requires InBounds(v, tail) && Distinct(tail)
    requires forall i, j :: 0 <= i < j < |tail| ==> v[tail[i]] >= v[tail[j]]
    requires forall c :: c in cand && c != cand[b] && c !in tail ==>
      forall i :: 0 <= i < |tail| ==> v[c] <= v[tail[i]]
    ensures var r := [cand[b]] + tail;
      && (forall x :: x in r ==> x in cand)
      && InBounds(v, r) && Distinct(r)
      && (forall i, j :: 0 <= i < j < |r| ==> v[r[i]] >= v[r[j]])
      && (forall c :: c in cand && c !in r ==> forall i :: 0 <= i < |r| ==> v[c] <= v[r[i]])
  {
    var r := [cand[b]] + tail;
    forall i | 0 < i < |r| ensures r[i] == tail[i - 1] && r[i] != cand[b] && v[r[i]] <= v[r[0]] {
      assert tail[i - 1] in tail;
      var x := tail[i - 1];
      var m :| 0 <= m < |cand| && cand[m] == x;
    }
  }

  /** `argsort(v)[::-1][:k]`: the indices of the k largest values, largest
      first. The order among equal values is unspecified in numpy; this model
      fixes it (lowest index first). The contract below does not state that
      order; lemmas that compare two lists compare lists of the same vector. */
  function TopK(v: Vector, k: nat): (r: seq<nat>)
    ensures |r| == Min(k, |v|)
    ensures InBounds(v, r) && Distinct(r)
    ensures forall i, j :: 0 <= i < j < |r| ==> v[r[i]] >= v[r[j]]
    ensures forall c :: 0 <= c < |v| && c !in r ==> forall i :: 0 <= i < |r| ==> v[c] <= v[r[i]]
  {
    var all := seq(|v|, i requires 0 <= i < |v| => i as nat);
    assert InBounds(v, all) && Distinct(all);
    assert forall c :: 0 <= c < |v| ==> c in all by {
      forall c | 0 <= c < |v| ensures c in all {
        assert all[c] == c;
      }
    }
    assert forall x :: x in all ==> x < |v|;
    TopFrom(v, all, k)
  }

  /** Whatever the tie order, the head of the ranking holds the maximum. */
  lemma TopKHeadIsMax(v: Vector, k: nat)
    requires |v| > 0 && k > 0
    ensures TopK(v, k)[0] < |v| && v[TopK(v, k)[0]] == v[ArgMax(v)]
  {
    var r := TopK(v, k);
    var m := ArgMax(v);
    if m !in r {
      assert v[m] <= v[r[0]];
    }
  }

  // ------------------------------------------------------------------
  // mean, max and vote
  // ------------------------------------------------------------------

  function Sum(s: seq<real>): real {
    if s == [] then 0.0 else Sum(s[..|s| - 1]) + s[|s| - 1]
  }

  /** Entry j of every vector. */
  function Column(ps: seq<Vector>, n: nat, j: nat): (c: seq<real>)
    requires Rectangular(ps, n) && j < n
    ensures |c| == |ps| && forall i :: 0 <= i < |ps| ==> c[i] == ps[i][j]
  {
    seq(|ps|, i requires 0 <= i < |ps| => ps[i][j])
  }

  function ColumnSums(ps: seq<Vector>, n: nat): (s: seq<real>)
    requires Rectangular(ps, n)
    ensures |s| == n
  {
    seq(n, j requires 0 <= j < n => Sum(Column(ps, n, j)))
  }

  /** Every entry divided by d. */
  function Scale(s: seq<real>, d: real): (r: seq<real>)
    requires d != 0.0
    ensures |r| == |s| && forall i :: 0 <= i < |s| ==> r[i] == s[i] / d
  {
    seq(|s|, i requires 0 <= i < |s| => s[i] / d)
  }

  /** `np.mean(all_probs, axis=0)`. */
  function Mean(ps: seq<Vector>, n: nat): (m: Vector)
    requires |ps| > 0 && Rectangular(ps, n)
    ensures |m| == n
  {
    Scale(ColumnSums(ps, n), |ps| as real)
  }

  /** The largest entry of a non-empty sequence. */
  function MaxOf(s: seq<real>): (r: real)
    requires |s| > 0
    ensures forall i :: 0 <= i < |s| ==> s[i] <= r
    ensures exists i :: 0 <= i < |s| && s[i] == r
  {
    if |s| == 1 then s[0]
    else
      var m := MaxOf(s[..|s| - 1]);
      assert forall i :: 0 <= i < |s| - 1 ==> s[..|s| - 1][i] == s[i];
      if s[|s| - 1] > m then s[|s| - 1] else m
  }

  /** `np.max(all_probs, axis=0)`: every entry is at least every input's entry
      at that index, and equal to one of them. */
  function Max(ps: seq<Vector>, n: nat): (m: Vector)
    requires |ps| > 0 && Rectangular(ps, n)
    ensures |m| == n
    ensures forall i, j :: 0 <= i < |ps| && 0 <= j < n ==> ps[i][j] <= m[j]
    ensures forall j :: 0 <= j < n ==> exists i :: 0 <= i < |ps| && m[j] == ps[i][j]
  {
    var m := seq(n, j requires 0 <= j < n => MaxOf(Column(ps, n, j)));
    forall j | 0 <= j < n ensures exists i :: 0 <= i < |ps| && m[j] == ps[i][j] {
      var i :| 0 <= i < |ps| && Column(ps, n, j)[i] == m[j];
      assert ps[i][j] == m[j];
    }
    m
  }

  /** One vote per vector, at its first maximal index. */
  function VoteCounts(ps: seq<Vector>, n: nat): (c: seq<nat>)
    requires n > 0 && Rectangular(ps, n)
    ensures |c| == n
  {
    if ps == [] then seq(n, _ => 0)
    else
      var c := VoteCounts(ps[..|ps| - 1], n);
      var k := ArgMax(ps[|ps| - 1]);
      c[k := c[k] + 1]
  }

  function ToReals(c: seq<nat>): (r: seq<real>)
    ensures |r| == |c| && forall i :: 0 <= i < |c| ==> r[i] == c[i] as real
  {
    seq(|c|, i requires 0 <= i < |c| => c[i] as real)
  }

  /** `votes / len(all_probs)`. */
  function VoteShares(ps: seq<Vector>, n: nat): (s: Vector)
    requires |ps| > 0 && n > 0 && Rectangular(ps, n)
    ensures |s| == n
  {
    Scale(ToReals(VoteCounts(ps, n)), |ps| as real)
  }

  /** The aggregate vector for a strategy string; any string other than
      "max" and "vote" gives the mean. */
  function Aggregate(ps: seq<Vector>, n: nat, strategy: string): (a: Vector)
    requires |ps| > 0 && n > 0 && Rectangular(ps, n)
    ensures |a| == n
  {
    if strategy == "mean" then Mean(ps, n)
    else if strategy == "max" then Max(ps, n)
    else if strategy == "vote" then VoteShares(ps, n)
    else Mean(ps, n)
  }

  // ------------------------------------------------------------------
  // the decision
  // ------------------------------------------------------------------

  datatype Top5Entry = Top5Entry(rank: nat, className: string, classNameKr: string, confidence: real)

  /** The final class (with its position in the label order), its display
      names, its confidence and the ranked top-5 list. */
  datatype Decision = Decision(
    index: nat,
    className: string,
    classNameKr: string,
    shortName: string,
    confidence: real,
    top5: seq<Top5Entry>)

  function Ranked(names: seq<string>, v: Vector, idx: seq<nat>): (r: seq<Top5Entry>)
    requires |v| == |names| && InBounds(v, idx)
    ensures |r| == |idx|
    ensures forall i :: 0 <= i < |idx| ==>
      r[i] == Top5Entry(i + 1, names[idx[i]], Labels.KoreanName(names[idx[i]]), v[idx[i]])
  {
    seq(|idx|, i requires 0 <= i < |idx| =>
      Top5Entry(i + 1, names[idx[i]], Labels.KoreanName(names[idx[i]]), v[idx[i]]))
  }

  /** The decision taken from an aggregate vector (main.py:306-326). Its
      properties are stated by `DecideSpec`. */
  function Decide(names: seq<string>, v: Vector): Decision
    requires |v| == |names| > 0
  {
    var k := ArgMax(v);
    var kr := Labels.KoreanName(names[k]);
    Decision(k, names[k], kr, Labels.ShortName(kr), v[k], Ranked(names, v, TopK(v, 5)))
  }

  /** The decision is the first maximum with its display names and
      probability, and its top-5 list is ranked, starts at that probability
      and never increases. */
  lemma DecideSpec(names: seq<string>, v: Vector)
    requires |v| == |names| > 0
    ensures var d := Decide(names, v);
      && d.index < |v| && d.confidence == v[d.index]
      && (forall j :: 0 <= j < |v| ==> v[j] <= d.confidence)
      && (forall j :: 0 <= j < d.index ==> v[j] < d.confidence)
      && d.className == names[d.index]
      && d.classNameKr == Labels.KoreanName(d.className)
      && d.shortName == Labels.ShortName(d.classNameKr)
      && d.top5 == Ranked(names, v, TopK(v, 5))
      && |d.top5| == Min(5, |v|) && d.top5[0].confidence == d.confidence
      && (forall i, j :: 0 <= i < j < |d.top5| ==> d.top5[i].confidence >= d.top5[j].confidence)
  {
    TopKHeadIsMax(v, 5);
  }

  /** `is_confident`: the unrounded confidence reaches the threshold. */
  predicate IsConfident(confidence: real, threshold: real) {
    confidence >= threshold
  }

  // ------------------------------------------------------------------
  // the aggregator as the source runs it
  // ------------------------------------------------------------------

  /** The vote loop: a zeroed counter array, incremented once per vector at
      that vector's argmax. */
  method CountVotes(ps: seq<Vector>, n: nat) returns (counts: seq<nat>)
    requires n > 0 && Rectangular(ps, n)
    ensures counts == VoteCounts(ps, n)
  {
    var votes := new nat[n](_ => 0);
    assert votes[..] == VoteCounts(ps[..0], n);
    for i := 0 to |ps|
      invariant votes[..] == VoteCounts(ps[..i], n)
    {
      assert ps[..i + 1][..i] == ps[..i];
      var k := ArgMax(ps[i]);
      votes[k] := votes[k] + 1;
    }
    assert ps[..|ps|] == ps;
    counts := votes[..];
  }

  datatype EnsembleError = EmptyEnsemble

  /** `ensemble_predictions`: fails on an empty list, otherwise the decision
      over the aggregate the strategy string selects. */
  method EnsemblePredictions(names: seq<string>, ps: seq<Vector>, strategy: string)
    returns (r: Result<Decision, EnsembleError>)
    requires |names| > 0 && Rectangular(ps, |names|)
    ensures ps == [] <==> r.Failure?
    ensures ps != [] ==> r == Success(Decide(names, Aggregate(ps, |names|, strategy)))
  {
    if ps == [] {
      return Failure(EmptyEnsemble);
    }
    var n := |names|;
    var agg: Vector;
    if strategy == "mean" {
      agg := Mean(ps, n);
    } else if strategy == "max" {
      agg := Max(ps, n);
    } else if strategy == "vote" {
      var votes := CountVotes(ps, n);
      agg := Scale(ToReals(votes), |ps| as real);
    } else {
      agg := Mean(ps, n);
    }
    r := Success(Decide(names, agg));
  }
}
