/**
 * The fixed label tables of the classifier service: the nine canonical class
 * identifiers, their Korean display names and short display names, and the
 * dictionary lookups with a fallback to the key itself.
 * (yolov8/api/main.py:50-72; yolov8/predict.py:22-45 holds identical copies.)
 */
module Labels {
  import opened Wrappers

  /** An ordered table, as a Python dict literal keeps insertion order. */
  type Table = seq<(string, string)>

  /** CLASS_NAMES_KR: canonical identifier -> Korean display name. */
  const ClassNamesKr: Table := [
    ("simple_pole", "간이폴, 분산폴 및 비기준 설치대"),
    ("steel_pipe", "강관주"),
    ("complex_type", "복합형"),
    ("indoor", "옥내, 터널, 지하 등"),
    ("single_pole_building", "원폴(건물)"),
    ("tower_building", "철탑(건물)"),
    ("tower_ground", "철탑(지면)"),
    ("telecom_pole", "통신주"),
    ("frame_mount", "프레임")
  ]

  /** SHORT_NAMES: Korean display name -> short display name. */
  const ShortNames: Table := [
    ("간이폴, 분산폴 및 비기준 설치대", "간이폴"),
    ("강관주", "강관주"),
    ("복합형", "복합형"),
    ("옥내, 터널, 지하 등", "옥내"),
    ("원폴(건물)", "원폴건물"),
    ("철탑(건물)", "철탑건물"),
    ("철탑(지면)", "철탑지면"),
    ("통신주", "통신주"),
    ("프레임", "프레임")
  ]

  /** The identifier list that `/classes` enumerates, in index order. */
  const ClassIds: seq<string> := [
    "simple_pole", "steel_pipe", "complex_type", "indoor",
    "single_pole_building", "tower_building", "tower_ground",
    "telecom_pole", "frame_mount"
  ]

  function Keys(t: Table): (ks: seq<string>)
    ensures |ks| == |t| && forall i :: 0 <= i < |t| ==> ks[i] == t[i].0
  {
    seq(|t|, i requires 0 <= i < |t| => t[i].0)
  }

  predicate DistinctKeys(t: Table) {
    forall i, j :: 0 <= i < j < |t| ==> t[i].0 != t[j].0
  }

  /** Dictionary indexing: the entry stored under `key`, if any. */
  function Lookup(t: Table, key: string): Option<string>
  {
    if t == [] then None
    else if t[0].0 == key then Some(t[0].1)
    else Lookup(t[1..], key)
  }

  /** The lookup misses exactly when no entry has the key, and a hit is
      the value of an entry with that key. */
  lemma {:induction false} LookupSpec(t: Table, key: string)
    ensures Lookup(t, key).None? <==> forall i :: 0 <= i < |t| ==> t[i].0 != key
    ensures Lookup(t, key).Some? ==> exists i :: 0 <= i < |t| && t[i] == (key, Lookup(t, key).value)
  {
    if t != [] && t[0].0 != key {
      LookupSpec(t[1..], key);
      forall i | 0 < i < |t|
        ensures t[i] == t[1..][i - 1]
      {
      }
      if Lookup(t, key).Some? {
        var j :| 0 <= j < |t[1..]| && t[1..][j] == (key, Lookup(t, key).value);
        assert t[j + 1] == (key, Lookup(t, key).value);
      }
    }
  }

  /** `dict.get(key, default)`. */
  function Get(t: Table, key: string, default: string): string {
    match Lookup(t, key)
    case Some(v) => v
    case None => default
  }

  /** `CLASS_NAMES_KR.get(name, name)`. */
  function KoreanName(id: string): string {
    Get(ClassNamesKr, id, id)
  }

  /** `SHORT_NAMES.get(name_kr, name_kr)`. */
  function ShortName(nameKr: string): string {
    Get(ShortNames, nameKr, nameKr)
  }

  lemma {:induction false} LookupUnique(t: Table, i: nat)
    requires DistinctKeys(t) && i < |t|
    ensures Lookup(t, t[i].0) == Some(t[i].1)
  {
    if i > 0 {
      assert DistinctKeys(t[1..]) by {
        forall a, b | 0 <= a < b < |t[1..]| ensures t[1..][a].0 != t[1..][b].0 {
          assert t[1..][a] == t[a + 1] && t[1..][b] == t[b + 1];
        }
      }
      assert t[0].0 != t[i].0;
      LookupUnique(t[1..], i - 1);
    }
  }

  /** No identifier is written twice in CLASS_NAMES_KR (each pair differs in
      length or in one named character). */
  lemma ClassNamesKrDistinct()
    ensures DistinctKeys(ClassNamesKr)
  {
    assert |ClassNamesKr[0].0| == 11;
    assert |ClassNamesKr[1].0| == 10 && |ClassNamesKr[2].0| == 12 && |ClassNamesKr[3].0| == 6 && |ClassNamesKr[4].0| == 20 && |ClassNamesKr[5].0| == 14 && |ClassNamesKr[6].0| == 12 && |ClassNamesKr[7].0| == 12 && ClassNamesKr[0].0[0] != ClassNamesKr[8].0[0];
    assert |ClassNamesKr[1].0| == 10;
    assert |ClassNamesKr[2].0| == 12 && |ClassNamesKr[3].0| == 6 && |ClassNamesKr[4].0| == 20 && |ClassNamesKr[5].0| == 14 && |ClassNamesKr[6].0| == 12 && |ClassNamesKr[7].0| == 12 && |ClassNamesKr[8].0| == 11;
    assert |ClassNamesKr[2].0| == 12;
    assert |ClassNamesKr[3].0| == 6 && |ClassNamesKr[4].0| == 20 && |ClassNamesKr[5].0| == 14 && ClassNamesKr[2].0[0] != ClassNamesKr[6].0[0] && ClassNamesKr[2].0[0] != ClassNamesKr[7].0[0] && |ClassNamesKr[8].0| == 11;
    assert |ClassNamesKr[3].0| == 6;
    assert |ClassNamesKr[4].0| == 20 && |ClassNamesKr[5].0| == 14 && |ClassNamesKr[6].0| == 12 && |ClassNamesKr[7].0| == 12 && |ClassNamesKr[8].0| == 11;
    assert |ClassNamesKr[4].0| == 20;
    assert |ClassNamesKr[5].0| == 14 && |ClassNamesKr[6].0| == 12 && |ClassNamesKr[7].0| == 12 && |ClassNamesKr[8].0| == 11;
    assert |ClassNamesKr[5].0| == 14;
    assert |ClassNamesKr[6].0| == 12 && |ClassNamesKr[7].0| == 12 && |ClassNamesKr[8].0| == 11;
    assert |ClassNamesKr[6].0| == 12;
    assert ClassNamesKr[6].0[1] != ClassNamesKr[7].0[1] && |ClassNamesKr[8].0| == 11;
    assert |ClassNamesKr[7].0| == 12;
    assert |ClassNamesKr[8].0| == 11;
  }

  /** No Korean name is written twice in SHORT_NAMES. */
  lemma ShortNamesDistinct()
    ensures DistinctKeys(ShortNames)
  {
    assert |ShortNames[0].0| == 18;
    assert |ShortNames[1].0| == 3 && |ShortNames[2].0| == 3 && |ShortNames[3].0| == 12 && |ShortNames[4].0| == 6 && |ShortNames[5].0| == 6 && |ShortNames[6].0| == 6 && |ShortNames[7].0| == 3 && |ShortNames[8].0| == 3;
    assert |ShortNames[1].0| == 3;
    assert ShortNames[1].0[0] != ShortNames[2].0[0] && |ShortNames[3].0| == 12 && |ShortNames[4].0| == 6 && |ShortNames[5].0| == 6 && |ShortNames[6].0| == 6 && ShortNames[1].0[0] != ShortNames[7].0[0] && ShortNames[1].0[0] != ShortNames[8].0[0];
    assert |ShortNames[2].0| == 3;
    assert |ShortNames[3].0| == 12 && |ShortNames[4].0| == 6 && |ShortNames[5].0| == 6 && |ShortNames[6].0| == 6 && ShortNames[2].0[0] != ShortNames[7].0[0] && ShortNames[2].0[0] != ShortNames[8].0[0];
    assert |ShortNames[3].0| == 12;
    assert |ShortNames[4].0| == 6 && |ShortNames[5].0| == 6 && |ShortNames[6].0| == 6 && |ShortNames[7].0| == 3 && |ShortNames[8].0| == 3;
    assert |ShortNames[4].0| == 6;
    assert ShortNames[4].0[0] != ShortNames[5].0[0] && ShortNames[4].0[0] != ShortNames[6].0[0] && |ShortNames[7].0| == 3 && |ShortNames[8].0| == 3;
    assert |ShortNames[5].0| == 6;
    assert ShortNames[5].0[3] != ShortNames[6].0[3] && |ShortNames[7].0| == 3 && |ShortNames[8].0| == 3;
    assert |ShortNames[6].0| == 6;
    assert |ShortNames[7].0| == 3 && |ShortNames[8].0| == 3;
    assert |ShortNames[7].0| == 3;
    assert ShortNames[7].0[0] != ShortNames[8].0[0];
  }

  /** Both tables are proper dictionaries (no key is written twice), so each
      identifier has exactly one Korean name and each Korean name exactly one
      short name; the nine identifiers of `/classes` are CLASS_NAMES_KR's keys
      in declaration order, and SHORT_NAMES is keyed by the Korean names in the
      same order. */
  lemma TablesWellFormed()
    ensures DistinctKeys(ClassNamesKr) && DistinctKeys(ShortNames)
    ensures Keys(ClassNamesKr) == ClassIds
    ensures forall i :: 0 <= i < 9 ==> ShortNames[i].0 == ClassNamesKr[i].1
  {
    ClassNamesKrDistinct();
    ShortNamesDistinct();
    var ks := Keys(ClassNamesKr);
    assert ks == ClassIds by {
      forall i | 0 <= i < 9 ensures ks[i] == ClassIds[i] {
      }
    }
  }

  /** A known identifier resolves through its table entry; the short name of a
      known identifier never falls back, because every Korean name is a key of
      SHORT_NAMES. */
  lemma KnownClassNames(i: nat)
    requires i < |ClassIds|
    ensures KoreanName(ClassIds[i]) == ClassNamesKr[i].1
    ensures Lookup(ShortNames, KoreanName(ClassIds[i])) == Some(ShortNames[i].1)
  {
    TablesWellFormed();
    LookupUnique(ClassNamesKr, i);
    LookupUnique(ShortNames, i);
  }

  /** An unknown identifier is displayed as itself. */
  lemma UnknownFallsBack(id: string)
    requires forall i :: 0 <= i < |ClassIds| ==> ClassIds[i] != id
    ensures KoreanName(id) == id
  {
    var ks := Keys(ClassNamesKr);
    assert ks == ClassIds by {
      TablesWellFormed();
    }
    forall i | 0 <= i < |ClassNamesKr| ensures ClassNamesKr[i].0 != id {
      assert ks[i] == ClassNamesKr[i].0;
    }
    LookupSpec(ClassNamesKr, id);
  }

  /** One row of `GET /classes`. */
  datatype ClassInfo = ClassInfo(id: nat, name: string, nameKr: string, shortName: string)

  /** `GET /classes`: note that the short name falls back to the English
      identifier, where every other lookup falls back to the Korean name. */
  function GetClasses(): (r: seq<ClassInfo>)
    ensures |r| == |ClassIds|
    ensures forall i :: 0 <= i < |r| ==> r[i].id == i && r[i].name == ClassIds[i]
  {
    seq(|ClassIds|, i requires 0 <= i < |ClassIds| =>
      ClassInfo(i, ClassIds[i], KoreanName(ClassIds[i]),
                Get(ShortNames, KoreanName(ClassIds[i]), ClassIds[i])))
  }

  /** For the nine listed classes the two fallbacks never apply: `/classes`
      reports exactly the table names, the same ones predictions report. */
  lemma {:induction false} ClassesMatchPredictionNames(i: nat)
    requires i < |ClassIds|
    ensures GetClasses()[i].nameKr == ClassNamesKr[i].1
    ensures GetClasses()[i].shortName == ShortNames[i].1 == ShortName(KoreanName(ClassIds[i]))
  {
    KnownClassNames(i);
  }
}
