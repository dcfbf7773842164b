/** The slice of `pathlib` the core relies on: a path's final name, its
    suffix, `with_suffix`, and joining a directory with a file name. */
module FilePaths {
  import opened Wrappers

  /** A filesystem path as its sequence of components; the last one is its name. */
  type FilePath = seq<string>

  /** `Path.name`: the final component, empty for a path without components. */
  function Name(p: FilePath): string {
    if |p| == 0 then "" else p[|p| - 1]
  }

  /** `Path.parent` as components. */
  function Parent(p: FilePath): FilePath {
    if |p| == 0 then [] else p[..|p| - 1]
  }

  /** `directory / name`. */
  function Join(directory: FilePath, name: string): (r: FilePath)
    ensures Parent(r) == directory && Name(r) == name
  {
    directory + [name]
  }

  /** `str.rfind(c)`: the last position holding `c`, or -1. */
  function RFind(s: string, c: char): (i: int)
    ensures -1 <= i < |s|
    ensures i >= 0 ==> s[i] == c
    ensures forall j :: i < j < |s| ==> s[j] != c
  {
    if |s| == 0 then -1
    else if s[|s| - 1] == c then |s| - 1
    else RFind(s[..|s| - 1], c)
  }

  /** `PurePath.suffix`: from the last dot, provided that dot is neither the
      first nor the last character of the name. */
  function Suffix(name: string): (r: string)
    ensures r == "" || (r[0] == '.' && |r| >= 2 && '.' !in r[1..])
    ensures |r| < |name| || r == ""
    ensures r != "" ==> name[|name| - |r|..] == r
  {
    var i := RFind(name, '.');
    if 0 < i < |name| - 1 then name[i..] else ""
  }

  /** `PurePath.stem`: the name without its suffix. */
  function Stem(name: string): (r: string)
    ensures r + Suffix(name) == name
  {
    name[..|name| - |Suffix(name)|]
  }

  /** The `ValueError`s `with_suffix` raises. */
  datatype PathError = InvalidSuffix(suffix: string) | EmptyName

  /** A suffix `with_suffix` accepts: empty, or a dot followed by at least
      one character, with no separator. */
  predicate ValidSuffix(suffix: string) {
    '/' !in suffix && (suffix == "" || (suffix[0] == '.' && suffix != "."))
  }

  /** `PurePath.with_suffix(suffix)`: replaces the name's suffix, or appends one. */
  function WithSuffix(p: FilePath, suffix: string): (r: Result<FilePath, PathError>)
    ensures !ValidSuffix(suffix) ==> r == Err(InvalidSuffix(suffix))
    ensures ValidSuffix(suffix) && Name(p) == "" ==> r == Err(EmptyName)
    ensures r.Ok? ==> |r.value| == |p| && Parent(r.value) == Parent(p)
    ensures ValidSuffix(suffix) && Name(p) != "" ==>
      r.Ok? && Name(r.value) == Stem(Name(p)) + suffix
  {
    if !ValidSuffix(suffix) then Err(InvalidSuffix(suffix))
    else if Name(p) == "" then Err(EmptyName)
    else Ok(Parent(p) + [Stem(Name(p)) + suffix])
  }

  lemma {:induction false} RFindSkipsTail(s: string, t: string, c: char)
    requires c !in t
    ensures RFind(s + t, c) == RFind(s, c)
    decreases |t|
  {
    if |t| > 0 {
      var u := s + t;
      assert u[..|u| - 1] == s + t[..|t| - 1];
      RFindSkipsTail(s, t[..|t| - 1], c);
    } else {
      assert s + t == s;
    }
  }

  /** A name made of a non-empty stem and a dotted extension with no further dot
      has exactly that extension as its suffix. */
  lemma SuffixOfStemAndExtension(stem: string, ext: string)
    requires |stem| > 0 && |ext| >= 2 && ext[0] == '.' && '.' !in ext[1..]
    ensures Suffix(stem + ext) == ext
  {
    assert stem + ext == (stem + ['.']) + ext[1..];
    RFindSkipsTail(stem + ['.'], ext[1..], '.');
    assert (stem + ext)[|stem|..] == ext;
  }

  /** A name that is only a dotted extension (a hidden file) has no suffix. */
  lemma SuffixOfBareExtension(ext: string)
    requires |ext| >= 2 && ext[0] == '.' && '.' !in ext[1..]
    ensures Suffix(ext) == ""
  {
    assert ext == [ext[0]] + ext[1..];
    RFindSkipsTail([ext[0]], ext[1..], '.');
  }

  /** After `with_suffix(ext)` the name's suffix is `ext` and its stem is the old stem. */
  lemma WithSuffixSetsSuffix(p: FilePath, ext: string)
    requires ValidSuffix(ext) && |ext| >= 2 && '.' !in ext[1..] && Name(p) != ""
    ensures WithSuffix(p, ext).Ok?
    ensures Suffix(Name(WithSuffix(p, ext).value)) == ext
    ensures Stem(Name(WithSuffix(p, ext).value)) == Stem(Name(p))
  {
    var name := Name(p);
    var previous := Suffix(name);
    var stem := Stem(name);
    if previous != "" {
      var i := RFind(name, '.');
      assert 0 < i < |name| - 1 && previous == name[i..];
      assert |stem| == i;
    }
    assert |stem| > 0;
    assert WithSuffix(p, ext) == Ok(Parent(p) + [stem + ext]);
    assert Name(Parent(p) + [stem + ext]) == stem + ext;
    SuffixOfStemAndExtension(stem, ext);
  }
}
