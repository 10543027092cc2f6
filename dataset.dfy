/**
 * The splitting half of the dataset preparation script
 * (yolov8/utils/data_prepare.py:101-228): each non-empty class list is
 * shuffled, cut at `int(len * train_ratio)` into a train prefix and a val
 * suffix, and every image is copied to `<output>/<split>/<class>/<index>_<name>`.
 */
module Dataset {
  import opened Wrappers
  import opened Paths
  import opened DataPrepare

  // ------------------------------------------------------------------
  // The cut point
  // ------------------------------------------------------------------

  /** Python's `int()` on a number: truncation toward zero. */
  function Trunc(x: real): (k: int)
    ensures x >= 0.0 ==> 0 <= k && k as real <= x < k as real + 1.0
    ensures x < 0.0 ==> k <= 0 && k as real - 1.0 < x <= k as real
  {
    if x >= 0.0 then x.Floor else -((-x).Floor)
  }

  /** Where a slice bound `k` falls in a list of length `n`: a negative bound
      counts from the end, and both ends clamp. */
  function SliceBound(k: int, n: nat): (j: nat)
    ensures j <= n
  {
    if k < 0 then (if n + k < 0 then 0 else n + k)
    else if k > n then n
    else k
  }

  /** `split_idx = int(len(images) * train_ratio)`, as the slices use it. */
  function SplitPoint(n: nat, ratio: real): nat {
    SliceBound(Trunc(n as real * ratio), n)
  }

  /** `images[:split_idx]`. */
  function TrainPart(images: seq<Item>, ratio: real): (r: seq<Item>)
    ensures |r| == SplitPoint(|images|, ratio)
  {
    images[..SplitPoint(|images|, ratio)]
  }

  /** `images[split_idx:]`. */
  function ValPart(images: seq<Item>, ratio: real): (r: seq<Item>)
    ensures |r| == |images| - SplitPoint(|images|, ratio)
  {
    images[SplitPoint(|images|, ratio)..]
  }

  /** The two parts are a prefix and the matching suffix: together they are
      the list, in order, so no image is lost or used twice. */
  lemma SplitSpec(images: seq<Item>, ratio: real)
    ensures TrainPart(images, ratio) + ValPart(images, ratio) == images
    ensures multiset(TrainPart(images, ratio)) + multiset(ValPart(images, ratio)) == multiset(images)
  {
    var k := SplitPoint(|images|, ratio);
    assert images[..k] + images[k..] == images;
  }

  lemma ScaleBounds(n: nat, ratio: real)
    requires 0.0 <= ratio <= 1.0
    ensures 0.0 <= n as real * ratio <= n as real
  {
    assert n as real * ratio <= n as real * 1.0;
  }

  /** For a ratio in [0, 1] the cut is at floor(len * ratio), within the
      list; a ratio of 1 or more puts everything in train. */
  lemma SplitPointSpec(n: nat, ratio: real)
    ensures 0.0 <= ratio <= 1.0 ==> SplitPoint(n, ratio) == (n as real * ratio).Floor <= n
    ensures ratio >= 1.0 ==> SplitPoint(n, ratio) == n
  {
    if 0.0 <= ratio <= 1.0 {
      ScaleBounds(n, ratio);
    }
    if ratio >= 1.0 {
      assert n as real * ratio >= n as real * 1.0;
    }
  }

  // ------------------------------------------------------------------
  // random.shuffle
  // ------------------------------------------------------------------

  /** The random generator after `random.seed(seed)`: an arbitrary stream of
      draws, consumed one per call. */
  class Random {
    const stream: nat -> nat
    var calls: nat

    constructor (stream: nat -> nat)
      ensures this.stream == stream && calls == 0
    {
      this.stream := stream;
      calls := 0;
    }

    /** `randbelow(n)`: a draw in [0, n). */
    method RandBelow(n: nat) returns (r: nat)
      requires n > 0
      modifies this
      ensures r < n
      ensures r == stream(old(calls)) % n && calls == old(calls) + 1
    {
      r := stream(calls) % n;
      calls := calls + 1;
    }
  }

  /** `random.shuffle(images)`: Fisher-Yates from the back, swapping each
      position with a drawn position at or before it. Whatever the draws, the
      result is a permutation of the list. */
  method Shuffle(a: array<Item>, rng: Random)
    modifies a, rng
    ensures multiset(a[..]) == multiset(old(a[..]))
  {
    if a.Length > 1 {
      for i := a.Length downto 1
        invariant multiset(a[..]) == multiset(old(a[..]))
      {
        var j := rng.RandBelow(i + 1);
        a[i], a[j] := a[j], a[i];
      }
    }
  }

  // ------------------------------------------------------------------
  // Copies
  // ------------------------------------------------------------------

  /** The copied images of the output tree: destination -> source path. */
  type Copies = map<string, string>

  /** `output_path / split / cls / f"{idx}_{img_path.name}"`. */
  function Dest(output: string, split: string, cls: string, x: Item): string {
    Join(Join(Join(output, split), cls), x.index + "_" + FileName(x.path))
  }

  /** One copy to be made: destination and source. */
  type Job = (string, string)

  /** The copy jobs for `items`, in order. */
  function Jobs(output: string, split: string, cls: string, items: seq<Item>): (js: seq<Job>)
    ensures |js| == |items|
  {
    if items == [] then []
    else
      var x := items[|items| - 1];
      Jobs(output, split, cls, items[..|items| - 1]) + [(Dest(output, split, cls, x), x.path)]
  }

  /** `shutil.copy2` for each job in order: a later copy to the same
      destination replaces an earlier one. */
  function PutAll(copies: Copies, js: seq<Job>): Copies {
    if js == [] then copies
    else PutAll(copies, js[..|js| - 1])[js[|js| - 1].0 := js[|js| - 1].1]
  }

  /** The copies after copying `items` in order. */
  function CopyAll(copies: Copies, output: string, split: string, cls: string, items: seq<Item>): Copies {
    PutAll(copies, Jobs(output, split, cls, items))
  }

  lemma {:induction false} JobsAt(output: string, split: string, cls: string, items: seq<Item>, i: nat)
    requires i < |items|
    ensures Jobs(output, split, cls, items)[i] == (Dest(output, split, cls, items[i]), items[i].path)
  {
    var n := |items| - 1;
    if i < n {
      JobsAt(output, split, cls, items[..n], i);
      assert items[..n][i] == items[i];
    }
  }

  lemma JobsStep(output: string, split: string, cls: string, items: seq<Item>, i: nat)
    requires i < |items|
    ensures Jobs(output, split, cls, items[..i + 1]) ==
            Jobs(output, split, cls, items[..i]) + [(Dest(output, split, cls, items[i]), items[i].path)]
  {
    assert items[..i + 1][..i] == items[..i];
  }

  lemma PutAllSnoc(copies: Copies, js: seq<Job>, j: Job)
    ensures PutAll(copies, js + [j]) == PutAll(copies, js)[j.0 := j.1]
  {
    assert (js + [j])[..|js|] == js;
  }

  /** The copy loop of one split of one class. */
  method CopyImages(copies: Copies, output: string, split: string, cls: string, items: seq<Item>)
    returns (result: Copies)
    ensures result == CopyAll(copies, output, split, cls, items)
  {
    result := copies;
    for i := 0 to |items|
      invariant result == PutAll(copies, Jobs(output, split, cls, items[..i]))
    {
      var dest := Join(Join(Join(output, split), cls), items[i].index + "_" + FileName(items[i].path));
      JobsStep(output, split, cls, items, i);
      PutAllSnoc(copies, Jobs(output, split, cls, items[..i]), (dest, items[i].path));
      result := result[dest := items[i].path];
    }
    assert items[..|items|] == items;
  }

  /** Copying adds exactly the jobs' destinations. */
  lemma {:induction false} PutAllKeys(copies: Copies, js: seq<Job>)
    ensures PutAll(copies, js).Keys == copies.Keys + set j | j in js :: j.0
  {
    if js != [] {
      var init := js[..|js| - 1];
      PutAllKeys(copies, init);
      assert js == init + [js[|js| - 1]];
      assert (set j | j in js :: j.0) == (set j | j in init :: j.0) + {js[|js| - 1].0};
    }
  }

  /** Every destination holds either its earlier copy, untouched, or the
      source of the last job copied there. */
  lemma {:induction false} PutAllSources(copies: Copies, js: seq<Job>, d: string)
    requires d in PutAll(copies, js)
    ensures (d in copies && PutAll(copies, js)[d] == copies[d]) ||
            (exists i :: 0 <= i < |js| && js[i] == (d, PutAll(copies, js)[d]))
  {
    if js != [] {
      var n := |js| - 1;
      if d != js[n].0 {
        PutAllSources(copies, js[..n], d);
        if !(d in copies && PutAll(copies, js[..n])[d] == copies[d]) {
          var i :| 0 <= i < n && js[..n][i] == (d, PutAll(copies, js[..n])[d]);
          assert js[i] == js[..n][i];
        }
      }
    }
  }

  /** When no two jobs share a destination, each destination holds its own
      job's source. */
  lemma {:induction false} PutAllDistinct(copies: Copies, js: seq<Job>, i: nat)
    requires i < |js|
    requires forall a, b :: 0 <= a < b < |js| ==> js[a].0 != js[b].0
    ensures js[i].0 in PutAll(copies, js) && PutAll(copies, js)[js[i].0] == js[i].1
  {
    var n := |js| - 1;
    if i < n {
      var init := js[..n];
      assert init[i] == js[i];
      assert forall a, b :: 0 <= a < b < |init| ==> init[a] == js[a] && init[b] == js[b];
      PutAllDistinct(copies, init, i);
    }
  }

  /** Copying the items of one split of one class puts a copy at every
      item's destination. */
  lemma CopyAllHas(copies: Copies, output: string, split: string, cls: string, items: seq<Item>, i: nat)
    requires i < |items|
    ensures Dest(output, split, cls, items[i]) in CopyAll(copies, output, split, cls, items)
  {
    var js := Jobs(output, split, cls, items);
    PutAllKeys(copies, js);
    JobsAt(output, split, cls, items, i);
    assert js[i] in js;
  }

  /** After copying, a destination holds either its earlier copy or the
      image of an item copied there. */
  lemma CopyAllFrom(copies: Copies, output: string, split: string, cls: string, items: seq<Item>, d: string)
    requires d in CopyAll(copies, output, split, cls, items)
    ensures (d in copies && CopyAll(copies, output, split, cls, items)[d] == copies[d]) ||
            (exists i :: 0 <= i < |items| && d == Dest(output, split, cls, items[i]) &&
                         CopyAll(copies, output, split, cls, items)[d] == items[i].path)
  {
    var js := Jobs(output, split, cls, items);
    PutAllSources(copies, js, d);
    if !(d in copies && PutAll(copies, js)[d] == copies[d]) {
      var i :| 0 <= i < |js| && js[i] == (d, PutAll(copies, js)[d]);
      JobsAt(output, split, cls, items, i);
    }
  }

  /** No two of the items share a destination. */
  predicate DistinctDests(output: string, split: string, cls: string, items: seq<Item>) {
    forall j, k :: 0 <= j < k < |items| ==>
      Dest(output, split, cls, items[j]) != Dest(output, split, cls, items[k])
  }

  /** When no two items share a destination, each item's destination holds
      that item's image. */
  lemma CopyAllDistinct(copies: Copies, output: string, split: string, cls: string, items: seq<Item>, i: nat)
    requires i < |items| && DistinctDests(output, split, cls, items)
    ensures Dest(output, split, cls, items[i]) in CopyAll(copies, output, split, cls, items)
    ensures CopyAll(copies, output, split, cls, items)[Dest(output, split, cls, items[i])] == items[i].path
  {
    var js := Jobs(output, split, cls, items);
    forall a, b | 0 <= a < b < |js| ensures js[a].0 != js[b].0 {
      JobsAt(output, split, cls, items, a);
      JobsAt(output, split, cls, items, b);
    }
    JobsAt(output, split, cls, items, i);
    PutAllDistinct(copies, js, i);
  }

  /** Copying never removes a destination. */
  lemma CopyAllGrows(copies: Copies, output: string, split: string, cls: string, items: seq<Item>)
    ensures copies.Keys <= CopyAll(copies, output, split, cls, items).Keys
  {
    PutAllKeys(copies, Jobs(output, split, cls, items));
  }

  // ------------------------------------------------------------------
  // One class
  // ------------------------------------------------------------------

  /** An image of class `cls` has been copied into train or val. */
  predicate Copied(copies: Copies, output: string, cls: string, x: Item) {
    Dest(output, "train", cls, x) in copies || Dest(output, "val", cls, x) in copies
  }

  /** Shuffle one class list, cut it, and copy both parts. */
  method SplitClass(copies: Copies, output: string, cls: string, images: seq<Item>, ratio: real, rng: Random)
    returns (result: Copies, train: seq<Item>, val: seq<Item>)
    modifies rng
    ensures multiset(train) + multiset(val) == multiset(images)
    ensures |train| == SplitPoint(|images|, ratio) && |val| == |images| - SplitPoint(|images|, ratio)
    ensures result == CopyAll(CopyAll(copies, output, "train", cls, train), output, "val", cls, val)
  {
    var a := new Item[|images|](i requires 0 <= i < |images| => images[i]);
    assert a[..] == images;
    Shuffle(a, rng);
    var shuffled := a[..];
    train := TrainPart(shuffled, ratio);
    val := ValPart(shuffled, ratio);
    SplitSpec(shuffled, ratio);
    result := CopyImages(copies, output, "train", cls, train);
    result := CopyImages(result, output, "val", cls, val);
  }

  /** After a class is split and copied, every one of its images has a copy
      and no earlier destination is lost. */
  lemma SplitClassCovers(copies: Copies, output: string, cls: string, images: seq<Item>,
                         train: seq<Item>, val: seq<Item>)
    requires multiset(train) + multiset(val) == multiset(images)
    ensures var result := CopyAll(CopyAll(copies, output, "train", cls, train), output, "val", cls, val);
            copies.Keys <= result.Keys &&
            forall x :: x in images ==> Copied(result, output, cls, x)
  {
    var mid := CopyAll(copies, output, "train", cls, train);
    var result := CopyAll(mid, output, "val", cls, val);
    CopyAllGrows(copies, output, "train", cls, train);
    CopyAllGrows(mid, output, "val", cls, val);
    forall x | x in images
      ensures Copied(result, output, cls, x)
    {
      assert x in multiset(images);
      if x in train {
        var i :| 0 <= i < |train| && train[i] == x;
        CopyAllHas(copies, output, "train", cls, train, i);
      } else {
        assert x in multiset(val);
        var i :| 0 <= i < |val| && val[i] == x;
        CopyAllHas(mid, output, "val", cls, val, i);
      }
    }
  }

  /** After copying, a destination holds either its earlier copy or the
      image of one of the items. */
  lemma CopyAllSource(copies: Copies, output: string, split: string, cls: string, items: seq<Item>, d: string)
    requires d in CopyAll(copies, output, split, cls, items)
    ensures (d in copies && CopyAll(copies, output, split, cls, items)[d] == copies[d]) ||
            exists x :: x in items && CopyAll(copies, output, split, cls, items)[d] == x.path
  {
    CopyAllFrom(copies, output, split, cls, items, d);
    if !(d in copies && CopyAll(copies, output, split, cls, items)[d] == copies[d]) {
      var i :| 0 <= i < |items| && CopyAll(copies, output, split, cls, items)[d] == items[i].path;
      assert items[i] in items;
    }
  }

  /** An item of either part of a cut is an item of the whole. */
  lemma PartsWithin(train: seq<Item>, val: seq<Item>, images: seq<Item>, x: Item)
    requires multiset(train) + multiset(val) == multiset(images)
    requires x in train || x in val
    ensures x in images
  {
    assert x in multiset(train) + multiset(val);
  }

  /** After a class is split and copied, every destination holds either its
      earlier copy or one of the class's images. */
  lemma SplitClassSources(copies: Copies, output: string, cls: string, images: seq<Item>,
                          train: seq<Item>, val: seq<Item>, d: string)
    requires multiset(train) + multiset(val) == multiset(images)
    requires d in CopyAll(CopyAll(copies, output, "train", cls, train), output, "val", cls, val)
    ensures var result := CopyAll(CopyAll(copies, output, "train", cls, train), output, "val", cls, val);
            (d in copies && result[d] == copies[d]) || exists x :: x in images && result[d] == x.path
  {
    var mid := CopyAll(copies, output, "train", cls, train);
    var result := CopyAll(mid, output, "val", cls, val);
    CopyAllSource(mid, output, "val", cls, val, d);
    if !(d in mid && result[d] == mid[d]) {
      var x :| x in val && result[d] == x.path;
      PartsWithin(train, val, images, x);
    } else {
      CopyAllSource(copies, output, "train", cls, train, d);
      if !(d in copies && mid[d] == copies[d]) {
        var x :| x in train && mid[d] == x.path;
        PartsWithin(train, val, images, x);
      }
    }
  }

  // ------------------------------------------------------------------
  // All classes
  // ------------------------------------------------------------------

  type ClassImages = map<string, seq<Item>>

  /** The class list of `c`, or nothing. */
  function ImagesOf(m: ClassImages, c: string): seq<Item> {
    if c in m then m[c] else []
  }

  /** `total_train` over the classes `cs`. */
  function TrainCount(m: ClassImages, cs: seq<string>, ratio: real): nat {
    if cs == [] then 0
    else TrainCount(m, cs[..|cs| - 1], ratio) + SplitPoint(|ImagesOf(m, cs[|cs| - 1])|, ratio)
  }

  /** `total_val` over the classes `cs`. */
  function ValCount(m: ClassImages, cs: seq<string>, ratio: real): nat {
    if cs == [] then 0
    else ValCount(m, cs[..|cs| - 1], ratio) +
         (|ImagesOf(m, cs[|cs| - 1])| - SplitPoint(|ImagesOf(m, cs[|cs| - 1])|, ratio))
  }

  /** The number of images in the class lists of `cs`. */
  function ImageCount(m: ClassImages, cs: seq<string>): nat {
    if cs == [] then 0
    else ImageCount(m, cs[..|cs| - 1]) + |ImagesOf(m, cs[|cs| - 1])|
  }

  /** Train and val together hold every image once. */
  lemma {:induction false} CountsAddUp(m: ClassImages, cs: seq<string>, ratio: real)
    ensures TrainCount(m, cs, ratio) + ValCount(m, cs, ratio) == ImageCount(m, cs)
  {
    if cs != [] {
      CountsAddUp(m, cs[..|cs| - 1], ratio);
    }
  }

  lemma CountsStep(m: ClassImages, cs: seq<string>, k: nat, ratio: real)
    requires k < |cs|
    ensures TrainCount(m, cs[..k + 1], ratio) == TrainCount(m, cs[..k], ratio) + SplitPoint(|ImagesOf(m, cs[k])|, ratio)
    ensures ValCount(m, cs[..k + 1], ratio) ==
            ValCount(m, cs[..k], ratio) + (|ImagesOf(m, cs[k])| - SplitPoint(|ImagesOf(m, cs[k])|, ratio))
  {
    assert cs[..k + 1][..k] == cs[..k];
  }

  /** Every image of the first `k` classes of `cs` has a copy. */
  ghost predicate Covers(copies: Copies, output: string, m: ClassImages, cs: seq<string>, k: nat) {
    forall j, x :: 0 <= j < k && j < |cs| && x in ImagesOf(m, cs[j]) ==> Copied(copies, output, cs[j], x)
  }

  /** The paths of all the images in the class lists. */
  ghost function ImagePaths(m: ClassImages): set<string> {
    set c, x | c in m && x in m[c] :: x.path
  }

  /** Every copy is of an image of some class list. */
  ghost predicate FromImages(copies: Copies, m: ClassImages) {
    forall d :: d in copies ==> copies[d] in ImagePaths(m)
  }

  /** Splitting and copying class `k` extends both facts to one more class. */
  lemma SplitAllStep(copies: Copies, output: string, m: ClassImages, cs: seq<string>, k: nat,
                     train: seq<Item>, val: seq<Item>)
    requires k < |cs| && cs[k] in m
    requires multiset(train) + multiset(val) == multiset(m[cs[k]])
    requires Covers(copies, output, m, cs, k) && FromImages(copies, m)
    ensures var result := CopyAll(CopyAll(copies, output, "train", cs[k], train), output, "val", cs[k], val);
            Covers(result, output, m, cs, k + 1) && FromImages(result, m)
  {
    var cls := cs[k];
    var result := CopyAll(CopyAll(copies, output, "train", cls, train), output, "val", cls, val);
    SplitClassCovers(copies, output, cls, m[cls], train, val);
    forall d | d in result
      ensures result[d] in ImagePaths(m)
    {
      SplitClassSources(copies, output, cls, m[cls], train, val, d);
      if !(d in copies && result[d] == copies[d]) {
        var x :| x in m[cls] && result[d] == x.path;
        assert cls in m;
      }
    }
  }

  /** A class with no images needs no copies. */
  lemma CoversEmpty(copies: Copies, output: string, m: ClassImages, cs: seq<string>, k: nat)
    requires k < |cs| && ImagesOf(m, cs[k]) == []
    requires Covers(copies, output, m, cs, k)
    ensures Covers(copies, output, m, cs, k + 1)
  {
  }

  /** The split loop: every class in `classes` order, skipping empty lists;
      each list is shuffled, cut, and both parts copied. */
  method SplitAll(classImages: ClassImages, output: string, ratio: real, rng: Random)
    returns (copies: Copies, totalTrain: nat, totalVal: nat)
    requires forall c :: c in Classes ==> c in classImages
    modifies rng
    ensures totalTrain == TrainCount(classImages, Classes, ratio)
    ensures totalVal == ValCount(classImages, Classes, ratio)
    ensures Covers(copies, output, classImages, Classes, |Classes|)
    ensures FromImages(copies, classImages)
  {
    copies := map[];
    totalTrain, totalVal := 0, 0;
    for k := 0 to |Classes|
      invariant totalTrain == TrainCount(classImages, Classes[..k], ratio)
      invariant totalVal == ValCount(classImages, Classes[..k], ratio)
      invariant Covers(copies, output, classImages, Classes, k)
      invariant FromImages(copies, classImages)
    {
      var cls := Classes[k];
      var images := classImages[cls];
      CountsStep(classImages, Classes, k, ratio);
      if images == [] {
        CoversEmpty(copies, output, classImages, Classes, k);
      } else {
        var result, train, val := SplitClass(copies, output, cls, images, ratio, rng);
        SplitAllStep(copies, output, classImages, Classes, k, train, val);
        copies := result;
        totalTrain := totalTrain + |train|;
        totalVal := totalVal + |val|;
      }
    }
    assert Classes[..|Classes|] == Classes;
  }

  // ------------------------------------------------------------------
  // The whole script
  // ------------------------------------------------------------------

  /** The survey table: whether it has the structure type column, which of
      the optional columns it has, and its rows. */
  datatype Survey = Survey(hasTypeColumn: bool, cols: Columns, rows: seq<Row>)

  /** What a run leaves behind: the unmapped types and missing images it
      reports, the copies in the output tree, and the two totals. */
  datatype Report = Report(unmapped: set<string>, missing: seq<string>, copies: Copies,
                           totalTrain: nat, totalVal: nat)

  /** The class lists hold the per-class lists of the placements, so their
      sizes add up to the sizes of those lists. */
  lemma {:induction false} ImageCountIsSizeSum(m: ClassImages, ps: seq<Placement>, cs: seq<string>)
    requires forall c :: c in cs ==> c in m && m[c] == Bucket(ps, c)
    ensures ImageCount(m, cs) == SizeSum(ps, cs)
  {
    if cs != [] {
      var init := cs[..|cs| - 1];
      assert forall c :: c in init ==> c in cs;
      ImageCountIsSizeSum(m, ps, init);
    }
  }

  /** Every placement in a class ends up in exactly one of train and val:
      the two totals add up to the number of placed rows. */
  lemma TotalsCountPlaced(ps: seq<Placement>, ratio: real)
    requires forall i :: 0 <= i < |ps| && ps[i].Placed? ==> ps[i].cls in Classes
    ensures var m := Collect(ps).classImages;
            TrainCount(m, Classes, ratio) + ValCount(m, Classes, ratio) == PlacedCount(ps)
  {
    var m := Collect(ps).classImages;
    CollectSpec(ps);
    CountsAddUp(m, Classes, ratio);
    ImageCountIsSizeSum(m, ps, Classes);
    BucketsHoldPlacedRows(ps);
  }

  /** Every image in a class list is a file that exists. */
  lemma ImagesExist(rows: seq<Row>, cols: Columns, base: string, existing: set<string>)
    ensures ImagePaths(Collect(Placements(rows, cols, base, existing)).classImages) <= existing
  {
    var ps := Placements(rows, cols, base, existing);
    var m := Collect(ps).classImages;
    PlacementsInClasses(rows, cols, base, existing);
    CollectSpec(ps);
    forall c: string, x: Item | c in m && x in m[c]
      ensures x.path in existing
    {
      assert c in Classes;
      BucketMembers(ps, c, x);
      var i :| 0 <= i < |ps| && ps[i] == Placed(c, x);
      PlaceSpec(rows[i], cols, base, existing);
    }
  }

  /** `prepare_classification_dataset`, without the printing and the folder
      creation: nothing when the survey lacks the type column; otherwise the
      row pass, then the split of every class list. The reports are the row
      pass's; every placed image is copied into train or val of its class,
      every copy is of an existing image, and the totals are the per-class
      cut sizes, which together count every placed row once. */
  method PrepareClassificationDataset(survey: Survey, imageDir: string, existing: set<string>,
                                      outputDir: string, ratio: real, rng: Random)
    returns (r: Option<Report>)
    modifies rng
    ensures r.None? <==> !survey.hasTypeColumn
    ensures r.Some? ==>
              var ps := Placements(survey.rows, survey.cols, imageDir, existing);
              var st := Collect(ps);
              r.value.unmapped == st.unmapped && r.value.missing == st.missing &&
              r.value.totalTrain == TrainCount(st.classImages, Classes, ratio) &&
              r.value.totalVal == ValCount(st.classImages, Classes, ratio) &&
              r.value.totalTrain + r.value.totalVal == PlacedCount(ps) &&
              Covers(r.value.copies, outputDir, st.classImages, Classes, |Classes|) &&
              forall d :: d in r.value.copies ==> r.value.copies[d] in existing
  {
    if !survey.hasTypeColumn {
      return None;
    }
    var classImages, unmapped, missing := CollectImages(survey.rows, survey.cols, imageDir, existing);
    ghost var ps := Placements(survey.rows, survey.cols, imageDir, existing);
    CollectSpec(ps);
    var copies, totalTrain, totalVal := SplitAll(classImages, outputDir, ratio, rng);
    PlacementsInClasses(survey.rows, survey.cols, imageDir, existing);
    TotalsCountPlaced(ps, ratio);
    ImagesExist(survey.rows, survey.cols, imageDir, existing);
    return Some(Report(unmapped, missing, copies, totalTrain, totalVal));
  }
}
