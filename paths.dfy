/**
 * The parts of Python's `pathlib` that the service relies on, on POSIX-style
 * '/'-separated names: `name`, `suffix`, `stem`, a sibling path, and `str.lower`
 * on ASCII letters.
 */
module Paths {

  /** Position of the last `c` in `s`, or -1 when there is none (`str.rfind`). */
  function LastIndex(s: string, c: char): (i: int)
    ensures -1 <= i < |s|
    ensures i >= 0 ==> s[i] == c
    ensures forall j :: i < j < |s| ==> s[j] != c
  {
    LastIndexBefore(s, c, |s|)
  }

  /** Position of the last `c` among the first m characters, or -1. */
  function LastIndexBefore(s: string, c: char, m: nat): (i: int)
    requires m <= |s|
    ensures -1 <= i < m
    ensures i >= 0 ==> s[i] == c
    ensures forall j :: i < j < m ==> s[j] != c
  {
    if m == 0 then -1
    else if s[m - 1] == c then m - 1
    else LastIndexBefore(s, c, m - 1)
  }

  /** `Path(p).name`: the text after the last '/'. */
  function FileName(p: string): (n: string)
    ensures '/' !in n
    ensures |n| <= |p| && n == p[|p| - |n|..]
  {
    p[LastIndex(p, '/') + 1..]
  }

  /** Where the suffix of a file name starts: its last '.', provided that dot
      is neither the first nor the last character. */
  predicate HasSuffix(name: string) {
    var i := LastIndex(name, '.');
    0 < i < |name| - 1
  }

  /** The suffix of a file name: empty, or a '.' followed by at least one
      character that is not a '.'. */
  function NameSuffix(name: string): (s: string)
    ensures s == [] || (|s| >= 2 && s[0] == '.' && '.' !in s[1..])
    ensures |s| <= |name| && s == name[|name| - |s|..]
  {
    if HasSuffix(name) then name[LastIndex(name, '.')..] else []
  }

  /** The stem of a file name: everything before its suffix. */
  function NameStem(name: string): string {
    if HasSuffix(name) then name[..LastIndex(name, '.')] else name
  }

  /** `Path(p).suffix`. */
  function Suffix(p: string): (s: string)
    ensures s == [] || (|s| >= 2 && s[0] == '.' && '.' !in s[1..] && '/' !in s)
  {
    NameSuffix(FileName(p))
  }

  /** `Path(p).stem`. */
  function Stem(p: string): string {
    NameStem(FileName(p))
  }

  /** `Path(p).parent / name` when p is not normalised further: everything
      up to and including the last '/', then the new name. */
  function Sibling(p: string, name: string): string {
    p[..LastIndex(p, '/') + 1] + name
  }

  /** The sibling path keeps the directory and has the new name as its name. */
  lemma SiblingName(p: string, name: string)
    requires '/' !in name
    ensures FileName(Sibling(p, name)) == name
    ensures Sibling(p, name)[..|Sibling(p, name)| - |name|] == p[..|p| - |FileName(p)|]
  {
    var dir := p[..LastIndex(p, '/') + 1];
    var q := dir + name;
    if dir == [] {
      assert q == name;
    } else {
      LastIndexOfSlash(dir, name);
      assert q[|dir|..] == name;
    }
  }

  lemma LastIndexOfSlash(a: string, b: string)
    requires a != [] && a[|a| - 1] == '/' && '/' !in b
    ensures LastIndex(a + b, '/') == |a| - 1
  {
    var s := a + b;
    assert s[|a| - 1] == '/';
    assert forall j :: |a| <= j < |s| ==> s[j] == b[j - |a|];
  }

  /** The stem and the suffix together give the file name back. */
  lemma StemSuffixSplit(p: string)
    ensures Stem(p) + Suffix(p) == FileName(p)
  {
  }

  /** `str(Path(base) / name)` for names without "." or ".." parts: an
      absolute name replaces the base, an empty base (the current directory)
      adds nothing, and otherwise a single '/' separates the two. */
  function Join(base: string, name: string): string {
    if |name| > 0 && name[0] == '/' then name
    else if base == [] || base == "." then name
    else if name == [] then base
    else if base[|base| - 1] == '/' then base + name
    else base + "/" + name
  }

  function LowerChar(c: char): char {
    if 'A' <= c <= 'Z' then (c as int + 32) as char else c
  }

  /** `str.lower()` restricted to ASCII letters. */
  function Lower(s: string): (r: string)
    ensures |r| == |s| && forall i :: 0 <= i < |s| ==> r[i] == LowerChar(s[i])
  {
    seq(|s|, i requires 0 <= i < |s| => LowerChar(s[i]))
  }

  /** Lower-casing moves no '.' and no '/'. */
  lemma LastIndexLower(s: string, c: char)
    requires c == '.' || c == '/'
    ensures LastIndex(Lower(s), c) == LastIndex(s, c)
  {
    LastIndexBeforeLower(s, c, |s|);
  }

  lemma {:induction false} LastIndexBeforeLower(s: string, c: char, m: nat)
    requires c == '.' || c == '/'
    requires m <= |s|
    ensures LastIndexBefore(Lower(s), c, m) == LastIndexBefore(s, c, m)
  {
    if m > 0 {
      LastIndexBeforeLower(s, c, m - 1);
    }
  }

  /** Taking the suffix commutes with lower-casing, so any test on
      `suffix.lower()` is a case-insensitive test on the name. */
  lemma SuffixOfLower(p: string)
    ensures Suffix(Lower(p)) == Lower(Suffix(p))
  {
    FileNameOfLower(p);
    NameSuffixOfLower(FileName(p));
  }

  lemma FileNameOfLower(p: string)
    ensures FileName(Lower(p)) == Lower(FileName(p))
  {
    LastIndexLower(p, '/');
    LowerFrom(p, LastIndex(p, '/') + 1);
  }

  lemma NameSuffixOfLower(name: string)
    ensures NameSuffix(Lower(name)) == Lower(NameSuffix(name))
  {
    LastIndexLower(name, '.');
    if HasSuffix(name) {
      LowerFrom(name, LastIndex(name, '.'));
    }
  }

  lemma LowerFrom(s: string, i: nat)
    requires i <= |s|
    ensures Lower(s)[i..] == Lower(s[i..])
  {
  }
}
