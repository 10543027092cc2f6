/**
 * The labelling half of the dataset preparation script
 * (yolov8/utils/data_prepare.py): the table from the site survey's
 * free-text structure type to a class identifier, the lookup that tolerates
 * surrounding whitespace and partial matches, and the pass that sorts the
 * survey rows into one image list per class.
 */
module DataPrepare {
  import opened Wrappers
  import opened Paths
  import Labels

  /** TYPE_MAPPING, in declaration order. */
  const TypeMapping: Labels.Table := [
    ("간이폴", "simple_pole"),
    ("분산폴", "simple_pole"),
    ("비기준 설치대", "simple_pole"),
    ("간이폴, 분산폴 및 비기준 설치대", "simple_pole"),
    ("강관주", "steel_pipe"),
    ("강관", "steel_pipe"),
    ("복합형", "complex_type"),
    ("복합", "complex_type"),
    ("옥내", "indoor"),
    ("터널", "indoor"),
    ("지하", "indoor"),
    ("옥내, 터널, 지하 등", "indoor"),
    ("원폴(건물)", "single_pole_building"),
    ("원폴_건물", "single_pole_building"),
    ("철탑(건물)", "tower_building"),
    ("철탑_건물", "tower_building"),
    ("철탑(지면)", "tower_ground"),
    ("철탑_지면", "tower_ground"),
    ("철탑", "tower_ground"),
    ("통신주", "telecom_pole"),
    ("프레임", "frame_mount")
  ]

  /** The `classes` list of the dataset folders. */
  const Classes: seq<string> := [
    "simple_pole", "steel_pipe", "complex_type", "indoor",
    "single_pole_building", "tower_building", "tower_ground",
    "telecom_pole", "frame_mount"
  ]

  // ------------------------------------------------------------------
  // str.strip()
  // ------------------------------------------------------------------

  /** The characters Python's `str.isspace` accepts. */
  predicate IsSpace(c: char) {
    '\t' <= c <= '\r' || '\U{1c}' <= c <= '\U{20}' || c == '\U{85}' || c == '\U{a0}' ||
    c == '\U{1680}' || '\U{2000}' <= c <= '\U{200a}' || c == '\U{2028}' || c == '\U{2029}' ||
    c == '\U{202f}' || c == '\U{205f}' || c == '\U{3000}'
  }


  /** Drop leading whitespace: the result is a suffix of `s` that does not
      start with whitespace, and everything dropped is whitespace. */
  function StripStart(s: string): (r: string)
    ensures |r| <= |s| && r == s[|s| - |r|..]
    ensures r == [] || !IsSpace(r[0])
    ensures forall j :: 0 <= j < |s| - |r| ==> IsSpace(s[j])
  {
    if s != [] && IsSpace(s[0]) then StripStart(s[1..]) else s
  }

  /** Drop trailing whitespace: the result is a prefix of `s` that does not
      end with whitespace, and everything dropped is whitespace. */
  function StripEnd(s: string): (r: string)
    ensures |r| <= |s| && r == s[..|r|]
    ensures r == [] || !IsSpace(r[|r| - 1])
    ensures forall j :: |r| <= j < |s| ==> IsSpace(s[j])
  {
    if s != [] && IsSpace(s[|s| - 1]) then StripEnd(s[..|s| - 1]) else s
  }

  /** `str.strip()`. */
  function Strip(s: string): string {
    StripEnd(StripStart(s))
  }

  /** Neither the first nor the last character is whitespace. */
  predicate Trimmed(s: string) {
    s == [] || (!IsSpace(s[0]) && !IsSpace(s[|s| - 1]))
  }

  /** The stripped text is a slice of the input with whitespace only around
      it, and neither starts nor ends with whitespace. */
  lemma StripSpec(s: string)
    ensures exists a, b :: 0 <= a <= b <= |s| && Strip(s) == s[a..b] &&
              (forall j :: 0 <= j < a ==> IsSpace(s[j])) &&
              (forall j :: b <= j < |s| ==> IsSpace(s[j]))
    ensures Trimmed(Strip(s))
  {
    var t := StripStart(s);
    var r := StripEnd(t);
    assert Strip(s) == r;
    var a := |s| - |t|;
    assert r == s[a..a + |r|];
    assert forall j :: a + |r| <= j < |s| ==> s[j] == t[j - a];
    if r != [] {
      assert r[0] == t[0];
    }
    assert Trimmed(r);
  }

  /** Text without whitespace at either end is left alone. */
  lemma StripUnchanged(s: string)
    requires Trimmed(s)
    ensures Strip(s) == s
  {
  }

  /** Stripping twice changes nothing. */
  lemma StripIdempotent(s: string)
    ensures Strip(Strip(s)) == Strip(s)
  {
    StripSpec(s);
    StripUnchanged(Strip(s));
  }

  // ------------------------------------------------------------------
  // map_type_to_class
  // ------------------------------------------------------------------

  /** Python's `key in text` on strings. */
  predicate IsSubstring(key: string, text: string) {
    exists i :: 0 <= i <= |text| && key <= text[i..]
  }

  /** The value of the first entry whose key occurs in `text`. */
  function FirstContained(t: Labels.Table, text: string): Option<string> {
    if t == [] then None
    else if IsSubstring(t[0].0, text) then Some(t[0].1)
    else FirstContained(t[1..], text)
  }

  /** A hit is the value of an entry whose key occurs in the text, and no
      earlier key occurs in it; a miss means no key occurs in it. */
  lemma {:induction false} FirstContainedSpec(t: Labels.Table, text: string)
    ensures FirstContained(t, text).None? <==> forall i :: 0 <= i < |t| ==> !IsSubstring(t[i].0, text)
    ensures FirstContained(t, text).Some? ==>
            exists i :: 0 <= i < |t| && IsSubstring(t[i].0, text) && t[i].1 == FirstContained(t, text).value &&
              forall j :: 0 <= j < i ==> !IsSubstring(t[j].0, text)
  {
    if t != [] && !IsSubstring(t[0].0, text) {
      FirstContainedSpec(t[1..], text);
      assert forall i :: 0 < i < |t| ==> t[i] == t[1..][i - 1];
      if FirstContained(t, text).Some? {
        var i :| 0 <= i < |t[1..]| && IsSubstring(t[1..][i].0, text) && t[1..][i].1 == FirstContained(t, text).value &&
                 forall j :: 0 <= j < i ==> !IsSubstring(t[1..][j].0, text);
        assert t[i + 1] == t[1..][i];
        assert forall j :: 0 < j < i + 1 ==> t[j] == t[1..][j - 1];
      }
    } else if t != [] {
      assert IsSubstring(t[0].0, text);
    }
  }

  /** `map_type_to_class`: strip the text, then an exact key, then the first
      key (in declaration order) contained in it, else nothing. */
  function MapTypeToClass(typeName: string): Option<string> {
    var text := Strip(typeName);
    match Labels.Lookup(TypeMapping, text)
    case Some(cls) => Some(cls)
    case None => FirstContained(TypeMapping, text)
  }

  /** Every value of TYPE_MAPPING is one of the nine dataset classes, and
      those are the model's class identifiers in the model's order. */
  lemma MappingTargetsAreClasses()
    ensures forall i :: 0 <= i < |TypeMapping| ==> TypeMapping[i].1 in Classes
    ensures Classes == Labels.ClassIds
  {
  }

  /** An exact key wins: it yields its own value, whatever other keys occur
      in the text. */
  lemma ExactKeyWins(typeName: string, i: nat)
    requires i < |TypeMapping| && Strip(typeName) == TypeMapping[i].0
    ensures MapTypeToClass(typeName) == Some(TypeMapping[i].1)
  {
    TypeMappingDistinct();
    Labels.LookupUnique(TypeMapping, i);
  }

  /** Without an exact key, the answer is the value of the first key that
      occurs in the stripped text; there is no answer exactly when no key
      occurs in it; and every answer is one of the nine classes. */
  lemma MapTypeToClassSpec(typeName: string)
    ensures var text := Strip(typeName);
            (MapTypeToClass(typeName).None? <==> forall i :: 0 <= i < |TypeMapping| ==> !IsSubstring(TypeMapping[i].0, text)) &&
            (Labels.Lookup(TypeMapping, text).None? ==> MapTypeToClass(typeName) == FirstContained(TypeMapping, text)) &&
            (MapTypeToClass(typeName).Some? ==> MapTypeToClass(typeName).value in Classes)
  {
    var text := Strip(typeName);
    Labels.LookupSpec(TypeMapping, text);
    FirstContainedSpec(TypeMapping, text);
    MappingTargetsAreClasses();
    match Labels.Lookup(TypeMapping, text)
    case Some(cls) =>
      var i :| 0 <= i < |TypeMapping| && TypeMapping[i] == (text, cls);
      assert text[0..] == text;
      assert IsSubstring(TypeMapping[i].0, text);
    case None =>
  }

  /** Every answer is one of the nine classes. */
  lemma MapsIntoClasses(typeName: string)
    ensures MapTypeToClass(typeName).Some? ==> MapTypeToClass(typeName).value in Classes
  {
    var text := Strip(typeName);
    MappingTargetsAreClasses();
    match Labels.Lookup(TypeMapping, text)
    case Some(cls) =>
      Labels.LookupSpec(TypeMapping, text);
    case None =>
      FirstContainedSpec(TypeMapping, text);
  }

  /** No key of TYPE_MAPPING is written twice. */
  lemma TypeMappingDistinct()
    ensures Labels.DistinctKeys(TypeMapping)
  {
    forall i, j | 0 <= i < j < |TypeMapping|
      ensures TypeMapping[i].0 != TypeMapping[j].0
    {
      DistinctByShape(i, j);
    }
  }

  /** Each pair of keys differs in length, in its first character or in its
      fourth character. */
  lemma DistinctByShape(i: nat, j: nat)
    requires i < j < |TypeMapping|
    ensures TypeMapping[i].0 != TypeMapping[j].0
  {
    var a, b := TypeMapping[i].0, TypeMapping[j].0;
    assert |a| != |b| || a[0] != b[0] || (|a| > 3 && a[3] != b[3]);
  }

  // ------------------------------------------------------------------
  // sorting the survey rows into class lists
  // ------------------------------------------------------------------

  /** One survey row: its dataframe index, its structure type cell, its image
      path cell (None when empty), and its site id cell. */
  datatype Row = Row(index: string, typeName: string, imageCell: Option<string>, siteId: string)

  /** Which of the optional columns the survey has. */
  datatype Columns = Columns(hasImage: bool, hasSiteId: bool)

  /** An image assigned to a class: the row index and the image path. */
  datatype Item = Item(index: string, path: string)

  /** What happens to one row. */
  datatype Placement =
    | Unmapped(typeName: string)
    | Skipped
    | Missing(shown: string)
    | Placed(cls: string, item: Item)

  /** The extensions tried, in order, when the image is found by site id. */
  const Extensions: seq<string> := [".jpg", ".jpeg", ".png", ".bmp", ".JPG", ".JPEG", ".PNG"]

  /** The first `base/<id><ext>` that exists, in the order of `exts`. */
  function FirstExisting(base: string, id: string, exts: seq<string>, existing: set<string>): (r: Option<string>)
    ensures r.Some? ==> r.value in existing && exists e :: e in exts && r.value == Join(base, id + e)
    ensures r.Some? ==> exists k :: 0 <= k < |exts| && r.value == Join(base, id + exts[k]) &&
                          forall j :: 0 <= j < k ==> Join(base, id + exts[j]) !in existing
    ensures r.None? ==> forall e :: e in exts ==> Join(base, id + e) !in existing
  {
    if exts == [] then None
    else if Join(base, id + exts[0]) in existing then Some(Join(base, id + exts[0]))
    else
      var r := FirstExisting(base, id, exts[1..], existing);
      if r.Some? then
        var k :| 0 <= k < |exts[1..]| && r.value == Join(base, id + exts[1..][k]) &&
                 forall j :: 0 <= j < k ==> Join(base, id + exts[1..][j]) !in existing;
        assert forall j :: 0 <= j < k + 1 ==> Join(base, id + exts[j]) !in existing by {
          forall j | 0 <= j < k + 1 ensures Join(base, id + exts[j]) !in existing {
            if j > 0 { assert exts[j] == exts[1..][j - 1]; }
          }
        }
        assert r.value == Join(base, id + exts[k + 1]);
        r
      else r
  }

  /** The body of the row loop: unmapped types are remembered; then the
      image is the path cell under the image folder when there is one, else
      the first existing `<id><ext>` when there is a site id column, else the
      row is dropped; an image that exists is placed in its class, any other
      is reported missing (by its path, or by the site id when nothing was
      found). */
  function Place(row: Row, cols: Columns, base: string, existing: set<string>): Placement {
    match MapTypeToClass(row.typeName)
    case None => Unmapped(row.typeName)
    case Some(cls) =>
      if cols.hasImage && row.imageCell.Some? then
        var p := Join(base, row.imageCell.value);
        if p in existing then Placed(cls, Item(row.index, p)) else Missing(p)
      else if cols.hasSiteId then
        match FirstExisting(base, row.siteId, Extensions, existing)
        case Some(p) => Placed(cls, Item(row.index, p))
        case None => Missing(row.siteId)
      else Skipped
  }

  /** What happens to each row, in row order. */
  function Placements(rows: seq<Row>, cols: Columns, base: string, existing: set<string>): (ps: seq<Placement>)
    ensures |ps| == |rows|
  {
    seq(|rows|, i requires 0 <= i < |rows| => Place(rows[i], cols, base, existing))
  }

  /** `class_images[cls]` after the given placements. */
  function Bucket(ps: seq<Placement>, cls: string): seq<Item> {
    if ps == [] then []
    else
      var pl := ps[|ps| - 1];
      Bucket(ps[..|ps| - 1], cls) + (if pl.Placed? && pl.cls == cls then [pl.item] else [])
  }

  /** The number of rows placed in some class. */
  function PlacedCount(ps: seq<Placement>): nat {
    if ps == [] then 0
    else PlacedCount(ps[..|ps| - 1]) + (if ps[|ps| - 1].Placed? then 1 else 0)
  }

  /** The candidate loop: try each extension in order and stop at the first
      file that exists. */
  method FindImageById(base: string, id: string, existing: set<string>) returns (found: Option<string>)
    ensures found == FirstExisting(base, id, Extensions, existing)
  {
    found := FindFirst(base, id, Extensions, existing);
  }

  /** The loop itself, over any list of extensions. */
  method FindFirst(base: string, id: string, exts: seq<string>, existing: set<string>) returns (found: Option<string>)
    ensures found == FirstExisting(base, id, exts, existing)
  {
    var k := 0;
    while k < |exts|
      invariant 0 <= k <= |exts|
      invariant FirstExisting(base, id, exts, existing) == FirstExisting(base, id, exts[k..], existing)
    {
      var candidate := Join(base, id + exts[k]);
      if candidate in existing {
        return Some(candidate);
      }
      assert exts[k..][1..] == exts[k + 1..];
      k := k + 1;
    }
    return None;
  }

  /** The body of the row loop for one row: map its type, then find its
      image. */
  method ClassifyRow(row: Row, cols: Columns, base: string, existing: set<string>) returns (pl: Placement)
    ensures pl == Place(row, cols, base, existing)
  {
    var cls := MapTypeToClass(row.typeName);
    if cls.None? {
      return Unmapped(row.typeName);
    }
    var imgPath: Option<string>;
    if cols.hasImage && row.imageCell.Some? {
      imgPath := Some(Join(base, row.imageCell.value));
    } else if cols.hasSiteId {
      imgPath := FindImageById(base, row.siteId, existing);
    } else {
      return Skipped;
    }
    if imgPath.Some? && imgPath.value in existing {
      pl := Placed(cls.value, Item(row.index, imgPath.value));
    } else {
      pl := Missing(if imgPath.Some? then imgPath.value else row.siteId);
    }
  }

  lemma TakeSnoc<T>(s: seq<T>, i: nat)
    requires i < |s|
    ensures s[..i + 1] == s[..i] + [s[i]]
  {
  }

  /** The three collections the row loop fills. */
  datatype Collected = Collected(classImages: map<string, seq<Item>>, unmapped: set<string>, missing: seq<string>)

  /** Every class starts with an empty list. */
  function EmptyCollected(): Collected {
    Collected(map c | c in Classes :: [], {}, [])
  }

  /** What one placement adds: its type to the unmapped set, its path or site
      id to the missing list, or its item to the end of its class's list. */
  function Absorb(st: Collected, pl: Placement): Collected {
    match pl
    case Unmapped(typeName) => st.(unmapped := st.unmapped + {typeName})
    case Skipped => st
    case Missing(shown) => st.(missing := st.missing + [shown])
    case Placed(cls, item) =>
      var m := st.classImages;
      st.(classImages := m[cls := (if cls in m then m[cls] else []) + [item]])
  }

  /** The collections after the given placements, in order. */
  function Collect(ps: seq<Placement>): Collected {
    if ps == [] then EmptyCollected()
    else Absorb(Collect(ps[..|ps| - 1]), ps[|ps| - 1])
  }

  lemma CollectSnoc(ps: seq<Placement>, pl: Placement)
    ensures Collect(ps + [pl]) == Absorb(Collect(ps), pl)
  {
    assert (ps + [pl])[..|ps|] == ps;
  }

  /** The branches of the row loop that store one row's outcome. */
  method Accumulate(classImages: map<string, seq<Item>>, unmapped: set<string>, missing: seq<string>, pl: Placement)
    returns (classImages': map<string, seq<Item>>, unmapped': set<string>, missing': seq<string>)
    ensures Collected(classImages', unmapped', missing') == Absorb(Collected(classImages, unmapped, missing), pl)
  {
    classImages', unmapped', missing' := classImages, unmapped, missing;
    match pl
    case Unmapped(typeName) =>
      unmapped' := unmapped + {typeName};
    case Skipped =>
    case Missing(shown) =>
      missing' := missing + [shown];
    case Placed(cls, item) =>
      var before := if cls in classImages then classImages[cls] else [];
      classImages' := classImages[cls := before + [item]];
  }

  /** The row loop of `prepare_classification_dataset`: one list per class
      (every class present from the start), the set of unmapped types and the
      list of missing images. */
  method CollectImages(rows: seq<Row>, cols: Columns, base: string, existing: set<string>)
    returns (classImages: map<string, seq<Item>>, unmapped: set<string>, missing: seq<string>)
    ensures Collected(classImages, unmapped, missing) == Collect(Placements(rows, cols, base, existing))
  {
    classImages := map c | c in Classes :: [];
    unmapped := {};
    missing := [];
    ghost var all := Placements(rows, cols, base, existing);
    ghost var ps: seq<Placement> := [];
    for i := 0 to |rows|
      invariant ps == all[..i]
      invariant Collected(classImages, unmapped, missing) == Collect(ps)
    {
      var pl := ClassifyRow(rows[i], cols, base, existing);
      TakeSnoc(all, i);
      CollectSnoc(ps, pl);
      classImages, unmapped, missing := Accumulate(classImages, unmapped, missing, pl);
      ps := ps + [pl];
    }
    assert all[..|rows|] == all;
  }

  /** A row lands in exactly one class list, the one its type maps to, and
      only when its image exists; a row whose type maps to nothing lands in
      none and is remembered as unmapped. A mapped row whose path cell names
      an existing file, or whose site id finds one, is placed with that file;
      a mapped row whose image is not found is reported by its path or its
      site id; a mapped row with neither column is skipped. */
  lemma PlaceSpec(row: Row, cols: Columns, base: string, existing: set<string>)
    ensures var pl := Place(row, cols, base, existing);
            (pl.Unmapped? <==> MapTypeToClass(row.typeName).None?) &&
            (pl.Unmapped? ==> pl.typeName == row.typeName) &&
            (pl.Placed? ==> Some(pl.cls) == MapTypeToClass(row.typeName) && pl.cls in Classes &&
                            pl.item.path in existing && pl.item.index == row.index)
    ensures MapTypeToClass(row.typeName).Some? && cols.hasImage && row.imageCell.Some? ==>
              var p := Join(base, row.imageCell.value);
              Place(row, cols, base, existing) ==
                (if p in existing then Placed(MapTypeToClass(row.typeName).value, Item(row.index, p)) else Missing(p))
    ensures MapTypeToClass(row.typeName).Some? && !(cols.hasImage && row.imageCell.Some?) && cols.hasSiteId ==>
              var found := FirstExisting(base, row.siteId, Extensions, existing);
              Place(row, cols, base, existing) ==
                (if found.Some? then Placed(MapTypeToClass(row.typeName).value, Item(row.index, found.value))
                 else Missing(row.siteId))
    ensures MapTypeToClass(row.typeName).Some? && !(cols.hasImage && row.imageCell.Some?) && !cols.hasSiteId ==>
              Place(row, cols, base, existing) == Skipped
  {
    MapsIntoClasses(row.typeName);
  }

  /** The sum of the sizes of the class lists of `cs`. */
  function SizeSum(ps: seq<Placement>, cs: seq<string>): nat {
    if cs == [] then 0
    else SizeSum(ps, cs[..|cs| - 1]) + |Bucket(ps, cs[|cs| - 1])|
  }

  /** Before any placement every class list is empty. */
  lemma {:induction false} SizeSumEmpty(cs: seq<string>)
    ensures SizeSum([], cs) == 0
  {
    if cs != [] {
      SizeSumEmpty(cs[..|cs| - 1]);
    }
  }

  /** One more placement grows the sum over `cs` by one when it places a
      class that occurs once in `cs`, and by nothing when it places none or
      a class outside `cs`. */
  lemma {:induction false} SizeSumStep(ps: seq<Placement>, cs: seq<string>)
    requires ps != []
    ensures var pl := ps[|ps| - 1];
            var before := SizeSum(ps[..|ps| - 1], cs);
            (!pl.Placed? || pl.cls !in cs ==> SizeSum(ps, cs) == before) &&
            (pl.Placed? && pl.cls in cs && (forall a, b :: 0 <= a < b < |cs| ==> cs[a] != cs[b]) ==>
               SizeSum(ps, cs) == before + 1)
  {
    if cs != [] {
      var init := cs[..|cs| - 1];
      SizeSumStep(ps, init);
      var pl := ps[|ps| - 1];
      if pl.Placed? && pl.cls in cs && pl.cls != cs[|cs| - 1] {
        var k :| 0 <= k < |cs| && cs[k] == pl.cls;
        assert init[k] == pl.cls;
      }
      if pl.Placed? && (forall a, b :: 0 <= a < b < |cs| ==> cs[a] != cs[b]) && pl.cls == cs[|cs| - 1] {
        assert pl.cls !in init by {
          forall k | 0 <= k < |init| ensures init[k] != pl.cls {
            assert init[k] == cs[k];
          }
        }
      }
      if pl.Placed? && pl.cls !in cs {
        assert pl.cls !in init;
      }
    }
  }

  /** The nine classes are distinct. */
  lemma ClassesDistinct()
    ensures forall a, b :: 0 <= a < b < |Classes| ==> Classes[a] != Classes[b]
  {
    Labels.TablesWellFormed();
    MappingTargetsAreClasses();
    forall a, b | 0 <= a < b < |Classes| ensures Classes[a] != Classes[b] {
      assert Classes[a] == Labels.Keys(Labels.ClassNamesKr)[a] == Labels.ClassNamesKr[a].0;
      assert Classes[b] == Labels.Keys(Labels.ClassNamesKr)[b] == Labels.ClassNamesKr[b].0;
    }
  }

  /** Every placement of the rows names one of the nine classes. */
  lemma PlacementsInClasses(rows: seq<Row>, cols: Columns, base: string, existing: set<string>)
    ensures var ps := Placements(rows, cols, base, existing);
            forall i :: 0 <= i < |ps| && ps[i].Placed? ==> ps[i].cls in Classes
  {
    forall i | 0 <= i < |rows|
      ensures var pl := Placements(rows, cols, base, existing)[i]; pl.Placed? ==> pl.cls in Classes
    {
      PlaceSpec(rows[i], cols, base, existing);
    }
  }

  /** No placed row is lost or counted twice: when every placement names
      one of the classes, the class lists together hold exactly the placed
      rows. */
  lemma {:induction false} BucketsHoldPlacedRows(ps: seq<Placement>)
    requires forall i :: 0 <= i < |ps| && ps[i].Placed? ==> ps[i].cls in Classes
    ensures SizeSum(ps, Classes) == PlacedCount(ps)
  {
    if ps != [] {
      var init := ps[..|ps| - 1];
      assert forall i :: 0 <= i < |init| ==> init[i] == ps[i];
      BucketsHoldPlacedRows(init);
      SizeSumStep(ps, Classes);
      ClassesDistinct();
      var pl := ps[|ps| - 1];
      assert pl.Placed? ==> pl.cls in Classes;
      assert SizeSum(ps, Classes) == SizeSum(init, Classes) + (if pl.Placed? then 1 else 0);
      assert PlacedCount(ps) == PlacedCount(init) + (if pl.Placed? then 1 else 0);
    } else {
      SizeSumEmpty(Classes);
    }
  }

  /** An item is in a class list exactly when some row was placed in that
      class with that item. */
  lemma {:induction false} BucketMembers(ps: seq<Placement>, cls: string, x: Item)
    ensures x in Bucket(ps, cls) <==> exists i :: 0 <= i < |ps| && ps[i] == Placed(cls, x)
  {
    if ps != [] {
      var init := ps[..|ps| - 1];
      var pl := ps[|ps| - 1];
      var added := if pl.Placed? && pl.cls == cls then [pl.item] else [];
      assert Bucket(ps, cls) == Bucket(init, cls) + added;
      assert x in added <==> pl == Placed(cls, x);
      BucketMembers(init, cls, x);
      if i :| 0 <= i < |init| && init[i] == Placed(cls, x) {
        assert ps[i] == init[i];
      }
      if i :| 0 <= i < |ps| && ps[i] == Placed(cls, x) {
        if i < |init| {
          assert init[i] == ps[i];
        }
      }
    }
  }

  /** A type is remembered as unmapped exactly when some row was left
      unmapped with that type. */
  lemma {:induction false} UnmappedMembers(ps: seq<Placement>, t: string)
    ensures t in Collect(ps).unmapped <==> exists i :: 0 <= i < |ps| && ps[i] == Unmapped(t)
  {
    if ps != [] {
      var init := ps[..|ps| - 1];
      UnmappedMembers(init, t);
      if i :| 0 <= i < |init| && init[i] == Unmapped(t) {
        assert ps[i] == init[i];
      }
      if i :| 0 <= i < |ps| && ps[i] == Unmapped(t) {
        if i < |init| {
          assert init[i] == ps[i];
        }
      }
    }
  }

  /** An entry is reported missing exactly when some row's image was not
      found under that path or site id. */
  lemma {:induction false} MissingMembers(ps: seq<Placement>, x: string)
    ensures x in Collect(ps).missing <==> exists i :: 0 <= i < |ps| && ps[i] == Missing(x)
  {
    if ps != [] {
      var init := ps[..|ps| - 1];
      MissingMembers(init, x);
      if i :| 0 <= i < |init| && init[i] == Missing(x) {
        assert ps[i] == init[i];
      }
      if i :| 0 <= i < |ps| && ps[i] == Missing(x) {
        if i < |init| {
          assert init[i] == ps[i];
        }
      }
    }
  }

  /** The class lists the loop keeps are the per-class lists: every class
      has its list, holding its placed items in row order; and when every
      placement names one of the classes, no other list appears. */
  lemma {:induction false} CollectSpec(ps: seq<Placement>)
    ensures forall c :: c in Classes ==> c in Collect(ps).classImages && Collect(ps).classImages[c] == Bucket(ps, c)
    ensures (forall i :: 0 <= i < |ps| && ps[i].Placed? ==> ps[i].cls in Classes) ==>
            Collect(ps).classImages.Keys == set c | c in Classes
  {
    forall c | c in Classes
      ensures c in Collect(ps).classImages && Collect(ps).classImages[c] == Bucket(ps, c)
    {
      CollectBucket(ps, c);
    }
    if forall i :: 0 <= i < |ps| && ps[i].Placed? ==> ps[i].cls in Classes {
      CollectKeys(ps);
    }
  }

  lemma {:induction false} CollectBucket(ps: seq<Placement>, c: string)
    requires c in Classes
    ensures c in Collect(ps).classImages && Collect(ps).classImages[c] == Bucket(ps, c)
  {
    if ps != [] {
      var init := ps[..|ps| - 1];
      var pl := ps[|ps| - 1];
      CollectBucket(init, c);
      assert Collect(ps) == Absorb(Collect(init), pl);
      assert Bucket(ps, c) == Bucket(init, c) + (if pl.Placed? && pl.cls == c then [pl.item] else []);
    }
  }

  lemma {:induction false} CollectKeys(ps: seq<Placement>)
    requires forall i :: 0 <= i < |ps| && ps[i].Placed? ==> ps[i].cls in Classes
    ensures Collect(ps).classImages.Keys == set c | c in Classes
  {
    if ps != [] {
      var init := ps[..|ps| - 1];
      assert forall i :: 0 <= i < |init| ==> init[i] == ps[i];
      CollectKeys(init);
      assert Collect(ps) == Absorb(Collect(init), ps[|ps| - 1]);
    }
  }
}
