/**
 * What the three aggregation strategies guarantee about their result:
 * mean and vote produce a distribution when the inputs are distributions,
 * every strategy stays within [0, 1], vote counts one vote per image, and
 * identical or single inputs give the expected decision.
 */
module EnsembleFacts {
  import opened Ensemble

  /** Every entry of every vector is a probability. */
  predicate UnitEntries(ps: seq<Vector>) {
    forall i, j :: 0 <= i < |ps| && 0 <= j < |ps[i]| ==> 0.0 <= ps[i][j] <= 1.0
  }

  /** Every vector sums to one. */
  predicate Distributions(ps: seq<Vector>) {
    forall i :: 0 <= i < |ps| ==> Sum(ps[i]) == 1.0
  }

  // ------------------------------------------------------------------
  // sums
  // ------------------------------------------------------------------

  lemma {:induction false} SumScale(s: seq<real>, d: real)
    requires d != 0.0
    ensures Sum(Scale(s, d)) == Sum(s) / d
  {
    if s != [] {
      assert Scale(s, d)[..|s| - 1] == Scale(s[..|s| - 1], d);
      SumScale(s[..|s| - 1], d);
    }
  }

  lemma {:induction false} SumConst(s: seq<real>, x: real)
    requires forall i :: 0 <= i < |s| ==> s[i] == x
    ensures Sum(s) == |s| as real * x
  {
    if s != [] {
      SumConst(s[..|s| - 1], x);
    }
  }

  lemma {:induction false} SumBounds(s: seq<real>)
    requires forall i :: 0 <= i < |s| ==> 0.0 <= s[i] <= 1.0
    ensures 0.0 <= Sum(s) <= |s| as real
  {
    if s != [] {
      SumBounds(s[..|s| - 1]);
    }
  }

  lemma {:induction false} EntryAtMostSum(s: seq<real>, k: nat)
    requires k < |s| && forall i :: 0 <= i < |s| ==> 0.0 <= s[i]
    ensures s[k] <= Sum(s)
  {
    var init := s[..|s| - 1];
    if k < |s| - 1 {
      EntryAtMostSum(init, k);
      NonNegSum(init);
    } else {
      NonNegSum(init);
    }
  }

  lemma {:induction false} NonNegSum(s: seq<real>)
    requires forall i :: 0 <= i < |s| ==> 0.0 <= s[i]
    ensures 0.0 <= Sum(s)
  {
    if s != [] {
      NonNegSum(s[..|s| - 1]);
    }
  }

  lemma {:induction false} SumIncrement(s: seq<real>, k: nat)
    requires k < |s|
    ensures Sum(s[k := s[k] + 1.0]) == Sum(s) + 1.0
  {
    var t := s[k := s[k] + 1.0];
    if k < |s| - 1 {
      assert t[..|t| - 1] == s[..|s| - 1][k := s[k] + 1.0];
      SumIncrement(s[..|s| - 1], k);
    } else {
      assert t[..|t| - 1] == s[..|s| - 1];
    }
  }

  /** Sum of the row totals. */
  function RowTotal(ps: seq<Vector>): real {
    if ps == [] then 0.0 else RowTotal(ps[..|ps| - 1]) + Sum(ps[|ps| - 1])
  }

  lemma {:induction false} SumPointwise(a: seq<real>, b: seq<real>, c: seq<real>)
    requires |a| == |b| == |c| && forall j :: 0 <= j < |c| ==> c[j] == a[j] + b[j]
    ensures Sum(c) == Sum(a) + Sum(b)
  {
    if c != [] {
      SumPointwise(a[..|a| - 1], b[..|b| - 1], c[..|c| - 1]);
    }
  }

  /** Adding up the column sums is adding up the row sums. */
  lemma {:induction false} ColumnSumsTotal(ps: seq<Vector>, n: nat)
    requires Rectangular(ps, n)
    ensures Sum(ColumnSums(ps, n)) == RowTotal(ps)
  {
    if ps == [] {
      SumConst(ColumnSums(ps, n), 0.0);
    } else {
      var init := ps[..|ps| - 1];
      var last := ps[|ps| - 1];
      ColumnSumsTotal(init, n);
      forall j | 0 <= j < n
        ensures ColumnSums(ps, n)[j] == ColumnSums(init, n)[j] + last[j]
      {
        assert Column(ps, n, j)[..|ps| - 1] == Column(init, n, j);
      }
      SumPointwise(ColumnSums(init, n), last, ColumnSums(ps, n));
    }
  }

  lemma {:induction false} RowTotalOfDistributions(ps: seq<Vector>)
    requires Distributions(ps)
    ensures RowTotal(ps) == |ps| as real
  {
    if ps != [] {
      RowTotalOfDistributions(ps[..|ps| - 1]);
    }
  }

  // ------------------------------------------------------------------
  // mean
  // ------------------------------------------------------------------

  /** The mean of distributions is a distribution. */
  lemma MeanSumsToOne(ps: seq<Vector>, n: nat)
    requires |ps| > 0 && Rectangular(ps, n) && Distributions(ps)
    ensures Sum(Mean(ps, n)) == 1.0
  {
    SumScale(ColumnSums(ps, n), |ps| as real);
    ColumnSumsTotal(ps, n);
    RowTotalOfDistributions(ps);
  }

  /** Each mean entry stays within [0, 1] when every input's entries do. */
  lemma MeanInUnitInterval(ps: seq<Vector>, n: nat)
    requires |ps| > 0 && Rectangular(ps, n) && UnitEntries(ps)
    ensures forall j :: 0 <= j < n ==> 0.0 <= Mean(ps, n)[j] <= 1.0
  {
    forall j | 0 <= j < n ensures 0.0 <= Mean(ps, n)[j] <= 1.0 {
      SumBounds(Column(ps, n, j));
    }
  }

  /** The mean of n copies of one vector is that vector. */
  lemma MeanOfIdentical(ps: seq<Vector>, n: nat, v: Vector)
    requires |ps| > 0 && |v| == n && forall i :: 0 <= i < |ps| ==> ps[i] == v
    ensures Rectangular(ps, n) && Mean(ps, n) == v
  {
    forall j | 0 <= j < n ensures Mean(ps, n)[j] == v[j] {
      SumConst(Column(ps, n, j), v[j]);
    }
  }

  /** The max of copies of one vector is that vector. */
  lemma MaxOfIdentical(ps: seq<Vector>, n: nat, v: Vector)
    requires |ps| > 0 && |v| == n && forall i :: 0 <= i < |ps| ==> ps[i] == v
    ensures Rectangular(ps, n) && Max(ps, n) == v
  {
    forall j | 0 <= j < n ensures Max(ps, n)[j] == v[j] {
      var i :| 0 <= i < |ps| && Max(ps, n)[j] == ps[i][j];
    }
  }

  // ------------------------------------------------------------------
  // vote
  // ------------------------------------------------------------------

  /** The voters for class j: the images whose first maximal index is j. */
  function Voters(ps: seq<Vector>, n: nat, j: nat): set<nat>
    requires n > 0 && Rectangular(ps, n)
  {
    set i: nat | i < |ps| && ArgMax(ps[i]) == j
  }

  /** Class j's count is exactly the number of images voting for it. */
  lemma {:induction false} VoteCountIsVoters(ps: seq<Vector>, n: nat, j: nat)
    requires n > 0 && Rectangular(ps, n) && j < n
    ensures VoteCounts(ps, n)[j] == |Voters(ps, n, j)|
  {
    if ps == [] {
      assert Voters(ps, n, j) == {};
    } else {
      var init := ps[..|ps| - 1];
      VoteCountIsVoters(init, n, j);
      var extra := VotersStep(ps, n, j);
      assert VoteCounts(ps, n)[j] == VoteCounts(init, n)[j] + |extra|;
    }
  }

  /** Appending an image adds it to its own class's voters and no other. */
  lemma VotersStep(ps: seq<Vector>, n: nat, j: nat) returns (extra: set<nat>)
    requires n > 0 && Rectangular(ps, n) && j < n && |ps| > 0
    ensures extra == if ArgMax(ps[|ps| - 1]) == j then {|ps| - 1} else {}
    ensures Voters(ps, n, j) == Voters(ps[..|ps| - 1], n, j) + extra
    ensures Voters(ps[..|ps| - 1], n, j) !! extra
  {
    var init, last := ps[..|ps| - 1], |ps| - 1;
    extra := if ArgMax(ps[last]) == j then {last} else {};
    var s, s0 := Voters(ps, n, j), Voters(init, n, j);
    forall i: nat ensures i in s <==> i in s0 + extra {
      if i < last {
        assert init[i] == ps[i];
      }
    }
  }

  /** One vote per image: the counts add up to the number of images. */
  lemma {:induction false} VoteCountsTotal(ps: seq<Vector>, n: nat)
    requires n > 0 && Rectangular(ps, n)
    ensures Sum(ToReals(VoteCounts(ps, n))) == |ps| as real
  {
    if ps == [] {
      SumConst(ToReals(VoteCounts(ps, n)), 0.0);
    } else {
      var init := ps[..|ps| - 1];
      VoteCountsTotal(init, n);
      var c := VoteCounts(init, n);
      var k := ArgMax(ps[|ps| - 1]);
      assert VoteCounts(ps, n) == c[k := c[k] + 1];
      assert ToReals(VoteCounts(ps, n)) == ToReals(c)[k := ToReals(c)[k] + 1.0];
      SumIncrement(ToReals(c), k);
    }
  }

  /** The vote shares form a distribution. */
  lemma VoteSharesSumToOne(ps: seq<Vector>, n: nat)
    requires |ps| > 0 && n > 0 && Rectangular(ps, n)
    ensures Sum(VoteShares(ps, n)) == 1.0
  {
    var counts := ToReals(VoteCounts(ps, n));
    var d := |ps| as real;
    var total := Sum(counts);
    assert total == d by {
      VoteCountsTotal(ps, n);
    }
    assert Sum(VoteShares(ps, n)) == total / d by {
      assert VoteShares(ps, n) == Scale(counts, d);
      SumScale(counts, d);
    }
    DivSelf(d);
  }

  lemma DivSelf(d: real)
    requires d != 0.0
    ensures d / d == 1.0
  {
  }

  /** Each vote share lies in [0, 1]. */
  lemma VoteSharesInUnitInterval(ps: seq<Vector>, n: nat)
    requires |ps| > 0 && n > 0 && Rectangular(ps, n)
    ensures forall j :: 0 <= j < n ==> 0.0 <= VoteShares(ps, n)[j] <= 1.0
  {
    var counts := ToReals(VoteCounts(ps, n));
    var d := |ps| as real;
    VoteCountsTotal(ps, n);
    forall j | 0 <= j < n ensures 0.0 <= VoteShares(ps, n)[j] <= 1.0 {
      EntryAtMostSum(counts, j);
      assert 0.0 <= counts[j] <= d;
      DivAtMostOne(counts[j], d);
    }
  }

  lemma DivAtMostOne(x: real, d: real)
    requires 0.0 <= x <= d && d > 0.0
    ensures 0.0 <= x / d <= 1.0
  {
    assert (x / d) * d == x;
  }

  /** All votes go to the common argmax of identical inputs. */
  lemma {:induction false} VoteCountsOfIdentical(ps: seq<Vector>, n: nat, v: Vector)
    requires |v| == n > 0 && forall i :: 0 <= i < |ps| ==> ps[i] == v
    ensures Rectangular(ps, n)
    ensures forall j :: 0 <= j < n ==> VoteCounts(ps, n)[j] == if j == ArgMax(v) then |ps| else 0
  {
    if ps != [] {
      VoteCountsOfIdentical(ps[..|ps| - 1], n, v);
    }
  }

  /** The decision follows the argmax of the aggregate: whatever vector is
      decided, a maximal entry with no earlier maximal entry is the final
      class and its value the confidence. */
  lemma DecideAt(names: seq<string>, v: Vector, k: nat)
    requires |v| == |names| > 0 && k < |v|
    requires forall j :: 0 <= j < |v| && j != k ==> v[j] < v[k]
    ensures Decide(names, v).index == k && Decide(names, v).confidence == v[k]
  {
    ArgMaxUnique(v, k);
  }

  /** Voting over identical inputs puts share 1 on their argmax and 0 elsewhere. */
  lemma VoteSharesOfIdentical(ps: seq<Vector>, v: Vector)
    requires |v| > 0 && |ps| > 0 && forall i :: 0 <= i < |ps| ==> ps[i] == v
    ensures Rectangular(ps, |v|)
    ensures forall j :: 0 <= j < |v| ==> VoteShares(ps, |v|)[j] == if j == ArgMax(v) then 1.0 else 0.0
  {
    var n := |v|;
    VoteCountsOfIdentical(ps, n, v);
    var counts := ToReals(VoteCounts(ps, n));
    var d := |ps| as real;
    assert VoteShares(ps, n) == Scale(counts, d);
    var k := ArgMax(v);
    forall j | 0 <= j < n
      ensures VoteShares(ps, n)[j] == if j == k then 1.0 else 0.0
    {
      if j == k {
        assert counts[j] == d;
        DivSelf(d);
      } else {
        assert counts[j] == 0.0;
      }
    }
  }

  /** The three strategy names select their own aggregator. */
  lemma AggregateStrategies(ps: seq<Vector>, n: nat)
    requires |ps| > 0 && n > 0 && Rectangular(ps, n)
    ensures Aggregate(ps, n, "mean") == Mean(ps, n)
    ensures Aggregate(ps, n, "max") == Max(ps, n)
    ensures Aggregate(ps, n, "vote") == VoteShares(ps, n)
  {
    assert "max"[1] != "mean"[1];
    assert "vote"[0] != "mean"[0] && "vote"[0] != "max"[0];
  }

  /** Voting over identical inputs picks their argmax with confidence 1. */
  lemma VoteOfIdentical(names: seq<string>, ps: seq<Vector>, v: Vector)
    requires |v| == |names| > 0 && |ps| > 0 && forall i :: 0 <= i < |ps| ==> ps[i] == v
    ensures Rectangular(ps, |v|)
    ensures Decide(names, Aggregate(ps, |v|, "vote")).index == ArgMax(v)
    ensures Decide(names, Aggregate(ps, |v|, "vote")).confidence == 1.0
  {
    var k := ArgMax(v);
    VoteSharesOfIdentical(ps, v);
    var s := Aggregate(ps, |v|, "vote");
    assert s == VoteShares(ps, |v|) by {
      AggregateStrategies(ps, |v|);
    }
    DecideAt(names, s, k);
  }

  /** Two of three images agreeing on a class carry the vote with 2/3. */
  lemma TwoOfThreeVote(names: seq<string>, a: Vector, b: Vector, c: Vector)
    requires |a| == |b| == |c| == |names| > 0
    requires ArgMax(a) == ArgMax(c) != ArgMax(b)
    ensures Rectangular([a, b, c], |a|)
    ensures Decide(names, Aggregate([a, b, c], |a|, "vote")).index == ArgMax(a)
    ensures Decide(names, Aggregate([a, b, c], |a|, "vote")).confidence == 2.0 / 3.0
  {
    var n := |a|;
    var ps := [a, b, c];
    var ka, kb := ArgMax(a), ArgMax(b);
    assert ps[..2][..1] == [a] && ps[..2] == [a, b] && ps[..1][..0] == [];
    var c0 := VoteCounts([], n);
    assert VoteCounts([a], n) == c0[ka := 1];
    assert VoteCounts([a, b], n) == c0[ka := 1][kb := 1];
    var counts := VoteCounts(ps, n);
    assert counts == c0[ka := 2][kb := 1];
    var s := VoteShares(ps, n);
    assert s == Scale(ToReals(counts), 3.0);
    assert s[ka] == 2.0 / 3.0;
    assert forall j :: 0 <= j < n && j != ka ==> s[j] <= 1.0 / 3.0;
    AggregateStrategies(ps, n);
    DecideAt(names, s, ka);
  }

  // ------------------------------------------------------------------
  // all strategies
  // ------------------------------------------------------------------

  /** Any strategy string other than mean, max and vote aggregates like mean. */
  lemma UnknownStrategyIsMean(ps: seq<Vector>, n: nat, strategy: string)
    requires |ps| > 0 && n > 0 && Rectangular(ps, n)
    requires strategy != "mean" && strategy != "max" && strategy != "vote"
    ensures Aggregate(ps, n, strategy) == Aggregate(ps, n, "mean")
  {
  }

  /** With probability inputs every aggregate entry, hence the final
      confidence, lies in [0, 1]. */
  lemma AggregateInUnitInterval(names: seq<string>, ps: seq<Vector>, strategy: string)
    requires |ps| > 0 && |names| > 0 && Rectangular(ps, |names|) && UnitEntries(ps)
    ensures forall j :: 0 <= j < |names| ==> 0.0 <= Aggregate(ps, |names|, strategy)[j] <= 1.0
    ensures 0.0 <= Decide(names, Aggregate(ps, |names|, strategy)).confidence <= 1.0
  {
    var n := |names|;
    MeanInUnitInterval(ps, n);
    VoteSharesInUnitInterval(ps, n);
    forall j | 0 <= j < n ensures 0.0 <= Max(ps, n)[j] <= 1.0 {
      var i :| 0 <= i < |ps| && Max(ps, n)[j] == ps[i][j];
    }
  }

  /** A one-image ensemble under mean or max decides exactly as the image's
      own vector does (what `/predict` reports for that image). */
  lemma SingleImageMeanOrMax(names: seq<string>, v: Vector, strategy: string)
    requires |v| == |names| > 0 && strategy != "vote"
    ensures Decide(names, Aggregate([v], |v|, strategy)) == Decide(names, v)
  {
    assert Aggregate([v], |v|, strategy) == v by {
      MeanOfIdentical([v], |v|, v);
      MaxOfIdentical([v], |v|, v);
    }
  }

  /** A one-image ensemble under vote keeps the image's class but reports
      confidence 1 whatever the image's own probability. */
  lemma SingleImageVote(names: seq<string>, v: Vector)
    requires |v| == |names| > 0
    ensures Decide(names, Aggregate([v], |v|, "vote")).index == ArgMax(v)
    ensures Decide(names, Aggregate([v], |v|, "vote")).confidence == 1.0
  {
    var ps := [v];
    var k := ArgMax(v);
    var s := Aggregate(ps, |v|, "vote");
    assert |s| == |v| && s[k] == 1.0 && forall j :: 0 <= j < |v| && j != k ==> s[j] < s[k] by {
      assert forall i :: 0 <= i < |ps| ==> ps[i] == v;
      VoteSharesOfIdentical(ps, v);
      AggregateStrategies(ps, |v|);
    }
    DecideAt(names, s, k);
  }
}
