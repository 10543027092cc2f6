/**
 * Upload validation and the temporary upload directory
 * (yolov8/api/main.py:35-39, 195-221): the extension allow-list, saving an
 * upload under a fresh name that keeps its lower-cased suffix, and the
 * cleanup that never raises.
 */
module Uploads {
  import opened Wrappers
  import opened Paths

  /** ALLOWED_EXTENSIONS. */
  const AllowedExtensions: set<string> := {".jpg", ".jpeg", ".png", ".bmp", ".webp"}

  /** `validate_image`: the lower-cased suffix of the client's file name is
      one of the allowed extensions. */
  predicate ValidateImage(filename: string) {
    Lower(Suffix(filename)) in AllowedExtensions
  }

  /** The shape every allowed extension has: a dot, then at least one
      character that is neither a dot nor a slash. */
  predicate ExtensionShape(e: string) {
    |e| >= 2 && e[0] == '.' && '.' !in e[1..] && '/' !in e
  }

  lemma AllowedExtensionsShape()
    ensures forall e :: e in AllowedExtensions ==> ExtensionShape(e)
  {
    assert ExtensionShape(".jpg") && ExtensionShape(".jpeg") && ExtensionShape(".png");
    assert ExtensionShape(".bmp") && ExtensionShape(".webp");
  }

  /** Lower-casing sends no other character to '.'. */
  lemma LowerCharDot(c: char)
    ensures LowerChar(c) == '.' <==> c == '.'
  {
  }

  /** The last-occurrence position is pinned down by its defining facts. */
  lemma LastIndexAt(s: string, c: char, j: nat)
    requires j < |s| && s[j] == c && forall k :: j < k < |s| ==> s[k] != c
    ensures LastIndex(s, c) == j
  {
  }

  /** For a well-shaped extension e, the lower-cased suffix of a file name
      is e exactly when the lower-cased name ends with e after at least one
      character. */
  lemma NameSuffixIs(name: string, e: string)
    requires ExtensionShape(e)
    ensures Lower(NameSuffix(name)) == e <==>
      (|name| > |e| && Lower(name)[|name| - |e|..] == e)
  {
    if Lower(NameSuffix(name)) == e {
      SuffixIsEnding(name, e);
    }
    if |name| > |e| && Lower(name)[|name| - |e|..] == e {
      EndingIsSuffix(name, e);
    }
  }

  lemma SuffixIsEnding(name: string, e: string)
    requires ExtensionShape(e) && Lower(NameSuffix(name)) == e
    ensures |name| > |e| && Lower(name)[|name| - |e|..] == e
  {
    var i := LastIndex(name, '.');
    assert HasSuffix(name);
    LowerFrom(name, i);
  }

  lemma EndingIsSuffix(name: string, e: string)
    requires ExtensionShape(e)
    requires |name| > |e| && Lower(name)[|name| - |e|..] == e
    ensures Lower(NameSuffix(name)) == e
  {
    var j := |name| - |e|;
    LastDotOfEnding(name, e);
    LowerFrom(name, j);
  }

  /** A lower-cased ending of the right shape starts at the last dot. */
  lemma LastDotOfEnding(name: string, e: string)
    requires ExtensionShape(e)
    requires |name| > |e| && Lower(name)[|name| - |e|..] == e
    ensures LastIndex(name, '.') == |name| - |e|
  {
    var n := |name|;
    var j := n - |e|;
    assert name[j] == '.' by {
      assert Lower(name)[j] == e[0];
      LowerCharDot(name[j]);
    }
    forall k | j < k < n ensures name[k] != '.' {
      assert Lower(name)[k] == e[k - j];
      assert e[k - j] in e[1..];
      LowerCharDot(name[k]);
    }
    LastIndexAt(name, '.', j);
  }

  /** The lower-cased file name ends with e, with at least one character
      before it. */
  predicate EndsWithExtension(name: string, e: string) {
    |name| > |e| && Lower(name)[|name| - |e|..] == e
  }

  /** `validate_image` accepts exactly the names whose file-name part, once
      lower-cased, ends with an allowed extension that is not the whole
      name. */
  lemma ValidateImageIffEndsWith(p: string)
    ensures ValidateImage(p) <==>
      exists e :: e in AllowedExtensions && EndsWithExtension(FileName(p), e)
  {
    AllowedSuffixIffEnding(FileName(p));
  }

  lemma AllowedSuffixIffEnding(name: string)
    ensures Lower(NameSuffix(name)) in AllowedExtensions <==>
      exists e :: e in AllowedExtensions && EndsWithExtension(name, e)
  {
    AllowedExtensionsShape();
    if Lower(NameSuffix(name)) in AllowedExtensions {
      var e := Lower(NameSuffix(name));
      NameSuffixIs(name, e);
      assert EndsWithExtension(name, e);
    }
    forall e | e in AllowedExtensions && EndsWithExtension(name, e)
      ensures Lower(NameSuffix(name)) in AllowedExtensions
    {
      NameSuffixIs(name, e);
    }
  }

  lemma LowerTwice(s: string)
    ensures Lower(Lower(s)) == Lower(s)
  {
  }

  /** The check is case-insensitive. */
  lemma ValidateImageIgnoresCase(p: string)
    ensures ValidateImage(Lower(p)) == ValidateImage(p)
  {
    SuffixOfLower(p);
    LowerTwice(Suffix(p));
  }

  lemma NoLastIndex(s: string, c: char)
    requires forall k :: 0 <= k < |s| ==> s[k] != c
    ensures LastIndex(s, c) == -1
  {
  }

  lemma FileNameAfterSlash(dir: string, name: string)
    requires '/' !in name
    ensures FileName(dir + "/" + name) == name
  {
    LastIndexAt(dir + "/" + name, '/', |dir|);
  }

  /** pathlib's rule: a name whose only dot is its first character has no
      suffix, so `.jpg` alone is rejected. */
  lemma LeadingDotRejected(dir: string, rest: string)
    requires '.' !in rest && '/' !in rest
    ensures !ValidateImage(dir + "/." + rest)
  {
    var p := dir + "/." + rest;
    var name := "." + rest;
    assert p == dir + "/" + name;
    FileNameAfterSlash(dir, name);
    LastIndexAt(name, '.', 0);
    assert Suffix(p) == [];
  }

  /** A file name without any dot is rejected. */
  lemma NoDotRejected(p: string)
    requires '.' !in FileName(p)
    ensures !ValidateImage(p)
  {
    NoLastIndex(FileName(p), '.');
  }

  // ------------------------------------------------------------------
  // the temporary upload directory
  // ------------------------------------------------------------------

  /** How writing an upload to disk goes: `open(file_path, "wb")` raises
      and creates nothing, or the file is opened and then reading the body
      or writing it raises, leaving the file behind, or both succeed. */
  datatype WriteOutcome = Saved | OpenRaised | WriteRaised

  /** An uploaded file as the handler receives it. */
  datatype Upload = Upload(filename: string, content: seq<bv8>, write: WriteOutcome)

  /** `temp_uploads/<uuid4><ext>`: the uuid is modelled by a number never
      handed out before. */
  datatype TempPath = TempPath(id: nat, ext: string)

  /** UPLOAD_DIR: the paths of the files currently in it. */
  class TempDir {
    var files: set<TempPath>
    var nextId: nat

    ghost predicate Valid()
      reads this
    {
      forall p :: p in files ==> p.id < nextId
    }

    constructor()
      ensures Valid() && files == {}
    {
      files := {};
      nextId := 0;
    }

    /** `save_upload_file`: open a fresh file named by a new uuid and the
        upload's lower-cased suffix, then write the body into it. A file
        that was opened stays (`created`) even when the write then raises;
        only a completed write returns its path. */
    method Save(u: Upload) returns (r: Option<TempPath>, ghost created: Option<TempPath>)
      requires Valid()
      modifies this
      ensures Valid()
      ensures created.Some? <==> !u.write.OpenRaised?
      ensures created.Some? ==> created.value !in old(files) && created.value.ext == Lower(Suffix(u.filename))
      ensures created.Some? ==> old(nextId) <= created.value.id < nextId
      ensures old(nextId) <= nextId
      ensures files == old(files) + Opt(created)
      ensures r == if u.write.Saved? then created else None
    {
      var path := TempPath(nextId, Lower(Suffix(u.filename)));
      nextId := nextId + 1;
      if u.write.OpenRaised? {
        return None, None;
      }
      created := Some(path);
      files := files + {path};
      r := if u.write.Saved? then Some(path) else None;
    }

    /** `cleanup_file`: remove the file if it exists. An exception from
        `exists()` or `unlink()` is swallowed (`unlinkOk` false), and the
        file then stays. */
    method Cleanup(p: TempPath, unlinkOk: bool)
      requires Valid()
      modifies this
      ensures Valid()
      ensures files == (if unlinkOk then old(files) - {p} else old(files)) && nextId == old(nextId)
    {
      if unlinkOk {
        files := files - {p};
      }
    }
  }
}
