/**
 * The `pathlib` behaviour that `generate_image.py` relies on when it names an
 * output file: `name`, `suffix` and `stem`, `with_name` and `with_suffix`,
 * then `apply_unique_naming` and `fix_extension` built from them.
 *
 * A path is its directory part (everything before the last '/', absent when
 * there is no '/') and its final name. A suffix is the part of the name from
 * its last '.', provided that dot is neither the first nor the last character
 * of the name (the rule of `PurePath.suffix` up to Python 3.13).
 */
module Paths {
  import opened Base
  import opened Text
  import opened ImageFormat

  datatype Path = Path(dir: Option<string>, name: string)

  /** `s.rfind(c)`: the index of the last `c` in `s`, or -1. */
  function LastIndex(s: string, c: char): (i: int)
    ensures -1 <= i < |s|
    ensures i >= 0 ==> s[i] == c
    ensures forall j :: i < j < |s| ==> s[j] != c
  {
    if s == [] then -1
    else if s[|s| - 1] == c then |s| - 1
    else LastIndex(s[..|s| - 1], c)
  }

  /** Where the suffix of `name` starts, when it has one. */
  predicate HasSuffix(name: string) {
    0 < LastIndex(name, '.') < |name| - 1
  }

  /** `PurePath.suffix`. */
  function Suffix(name: string): string {
    if HasSuffix(name) then name[LastIndex(name, '.')..] else ""
  }

  /** `PurePath.stem`. */
  function Stem(name: string): string {
    if HasSuffix(name) then name[..LastIndex(name, '.')] else name
  }

  /** `Path(s)`, without pathlib's normalisation of repeated or trailing
      separators and "." components. */
  function ParsePath(s: string): Path {
    var i := LastIndex(s, '/');
    if i < 0 then Path(None, s) else Path(Some(s[..i]), s[i + 1..])
  }

  /** `str(p)`. */
  function PathString(p: Path): string {
    match p.dir
    case None => p.name
    case Some(d) => d + "/" + p.name
  }

  /** Printing a parsed path gives back the string. */
  lemma ParsePrintRoundTrip(s: string)
    ensures PathString(ParsePath(s)) == s
  {
    var i := LastIndex(s, '/');
    if i >= 0 {
      assert s == s[..i] + "/" + s[i + 1..];
    }
  }

  /** Parsing a printed path whose name has no separator gives back the path. */
  lemma PrintParseRoundTrip(p: Path)
    requires '/' !in p.name
    ensures ParsePath(PathString(p)) == p
  {
    var s := PathString(p);
    match p.dir
    case None =>
    case Some(d) =>
      assert s[|d|] == '/';
      assert s[|d| + 1..] == p.name;
      forall j | |d| < j < |s| ensures s[j] != '/' {
        assert s[j] == p.name[j - |d| - 1];
      }
      assert LastIndex(s, '/') == |d|;
      assert s[..|d|] == d;
  }

  /** A name that `with_name` accepts. */
  predicate ValidName(n: string) {
    n != "" && '/' !in n && n != "."
  }

  /** `p.with_name(n)`: `None` where pathlib raises ValueError. */
  function WithName(p: Path, n: string): (r: Option<Path>)
    ensures r.Some? <==> p.name != "" && ValidName(n)
    ensures r.Some? ==> r.value == Path(p.dir, n)
  {
    if p.name == "" || !ValidName(n) then None else Some(Path(p.dir, n))
  }

  /** A suffix that `with_suffix` accepts. */
  predicate ValidSuffix(s: string) {
    '/' !in s && (s == "" || s[0] == '.') && s != "."
  }

  /** `p.with_suffix(s)`: `None` where pathlib raises ValueError. */
  function WithSuffix(p: Path, s: string): (r: Option<Path>)
    ensures r.Some? <==> p.name != "" && ValidSuffix(s)
    ensures r.Some? ==> r.value == Path(p.dir, Stem(p.name) + s)
  {
    if !ValidSuffix(s) || p.name == "" then None else Some(Path(p.dir, Stem(p.name) + s))
  }

  /** An extension as this model produces them: a dot followed by at least one
      character and no further dot or separator. */
  predicate IsPlainExt(e: string) {
    |e| >= 2 && e[0] == '.' && '.' !in e[1..] && '/' !in e
  }

  lemma ImageExtIsPlain(e: string)
    requires IsImageExt(e)
    ensures IsPlainExt(e) && ValidSuffix(e)
  {
  }

  /** Appending a plain extension to a non-empty stem makes it the suffix, and
      leaves that stem as the stem. */
  lemma AppendExt(stem: string, ext: string)
    requires stem != "" && IsPlainExt(ext)
    ensures Suffix(stem + ext) == ext && Stem(stem + ext) == stem
  {
    var s := stem + ext;
    var i := LastIndex(s, '.');
    assert s[|stem|] == '.';
    forall j | |stem| < j < |s| ensures s[j] != '.' {
      assert s[j] == ext[1..][j - |stem| - 1];
    }
    assert i == |stem|;
    assert s[..i] == stem && s[i..] == ext;
  }

  /** The stem of a non-empty name is non-empty. */
  lemma StemNonEmpty(name: string)
    requires name != ""
    ensures Stem(name) != ""
  {
  }

  /** The stem and the suffix together make up the name. */
  lemma StemAndSuffix(name: string)
    ensures Stem(name) + Suffix(name) == name
  {
  }

  const UniqueIdLength := 4

  /** The alphabet of unique ids: `string.ascii_lowercase + string.digits`. */
  predicate IsIdChar(c: char) {
    ('a' <= c <= 'z') || ('0' <= c <= '9')
  }

  /** What `generate_unique_id()` returns: four characters from a-z0-9. */
  predicate ValidUniqueId(id: string) {
    |id| == UniqueIdLength && forall i :: 0 <= i < |id| ==> IsIdChar(id[i])
  }

  /** The name `apply_unique_naming` builds: `f"{stem}_{unique_id}{suffix}"`. */
  function UniqueName(name: string, id: string): string {
    Stem(name) + "_" + id + Suffix(name)
  }

  /** The new name is one `with_name` accepts exactly when the old name has no
      separator. */
  lemma UniqueNameValid(name: string, id: string)
    requires ValidUniqueId(id)
    ensures ValidName(UniqueName(name, id)) <==> '/' !in name
  {
    var n := UniqueName(name, id);
    var m := |Stem(name)|;
    StemAndSuffix(name);
    assert n[m] == '_';
    if '/' in name {
      var k :| 0 <= k < |name| && name[k] == '/';
      if k < m {
        assert n[k] == name[k];
      } else {
        assert n[k + 5] == name[k];
      }
    } else {
      forall k | 0 <= k < |n| ensures n[k] != '/' {
        if k < m {
          assert n[k] == name[k];
        } else if k >= m + 5 {
          assert n[k] == name[k - 5];
        } else if k > m {
          assert n[k] == id[k - m - 1];
        }
      }
    }
  }

  /** `apply_unique_naming` with the random id supplied by the caller: the name
      becomes `stem + "_" + id + suffix` in the same directory; `None` where
      `with_name` raises, which is exactly for a path with an empty name (or a
      name holding a separator, which pathlib never produces). */
  function ApplyUniqueNaming(p: Path, id: string): (r: Option<Path>)
    requires ValidUniqueId(id)
    ensures r.Some? <==> p.name != "" && '/' !in p.name
    ensures r.Some? ==> r.value.dir == p.dir
  {
    UniqueNameValid(p.name, id);
    WithName(p, UniqueName(p.name, id))
  }

  /** Whether `name` ends in a dot after at least one other character, so that it
      has no suffix although it contains a dot that is not its first character. */
  predicate TrailingDot(name: string) {
    |name| >= 2 && name[|name| - 1] == '.'
  }

  /** The unique id goes between stem and suffix: the new name's stem is the old
      stem plus "_" and the id, and its suffix is the old suffix, except for a
      name with a trailing dot. */
  lemma UniqueNamingKeepsSuffix(p: Path, id: string)
    requires ValidUniqueId(id) && p.name != "" && '/' !in p.name && !TrailingDot(p.name)
    ensures ApplyUniqueNaming(p, id).Some?
    ensures var n := ApplyUniqueNaming(p, id).value.name;
      Stem(n) == Stem(p.name) + "_" + id && Suffix(n) == Suffix(p.name)
  {
    var stem, suffix := Stem(p.name), Suffix(p.name);
    var n := stem + "_" + id + suffix;
    assert ApplyUniqueNaming(p, id).value.name == n;
    if HasSuffix(p.name) {
      var i := LastIndex(p.name, '.');
      assert suffix == p.name[i..];
      assert '.' !in suffix[1..] by {
        forall j | 1 <= j < |suffix| ensures suffix[j] != '.' {
          assert suffix[j] == p.name[i + j];
        }
      }
      AppendExt(stem + "_" + id, suffix);
    } else {
      NoSuffixNoDot(p.name);
      assert n == p.name + "_" + id;
      forall j | 0 < j < |n| ensures n[j] != '.' {
        if j < |p.name| {
          assert n[j] == p.name[j];
        } else if j > |p.name| {
          assert n[j] == id[j - |p.name| - 1];
        }
      }
      assert !HasSuffix(n);
    }
  }

  /** A name without a suffix and without a trailing dot has no dot except
      possibly its first character. */
  lemma NoSuffixNoDot(name: string)
    requires !HasSuffix(name) && !TrailingDot(name)
    ensures forall j :: 0 < j < |name| ==> name[j] != '.'
  {
    var i := LastIndex(name, '.');
    assert i <= 0 || i == |name| - 1;
  }

  /** A name with a trailing dot loses the unique id at the next suffix
      change: "image." becomes "image._k3x9", whose suffix is "._k3x9". */
  lemma TrailingDotMovesSuffix(id: string)
    requires ValidUniqueId(id)
    ensures ApplyUniqueNaming(Path(None, "image."), id) == Some(Path(None, "image._" + id))
    ensures Suffix("image._" + id) == "._" + id && Stem("image._" + id) == "image"
  {
    var n := "image._" + id;
    assert !HasSuffix("image.") && Stem("image.") == "image." && Suffix("image.") == "";
    assert UniqueName("image.", id) == n;
    assert n[5] == '.';
    var i := LastIndex(n, '.');
    forall j | 5 < j < |n| ensures n[j] != '.' {
      if j > 6 { assert n[j] == id[j - 7]; }
    }
    assert i == 5;
    assert n[..5] == "image" && n[5..] == "._" + id;
  }

  /** The suffix compared by `fix_extension`: lower-cased, ".jpeg" read as ".jpg". */
  function NormalizedSuffix(name: string): string {
    var e := Lower(Suffix(name));
    if e == ".jpeg" then ".jpg" else e
  }

  /** A string without upper-case ASCII letters is its own lower-case form. */
  lemma LowerUnchanged(s: string)
    requires forall i :: 0 <= i < |s| ==> !('A' <= s[i] <= 'Z')
    ensures Lower(s) == s
  {
  }

  /** Replacing the suffix of a non-empty name by a detected extension keeps the
      stem and makes that extension the (normalised) suffix. */
  lemma ReplacedSuffix(name: string, detected: string)
    requires IsImageExt(detected)
    ensures name != "" ==> var n := Stem(name) + detected;
      Stem(n) == Stem(name) && Suffix(n) == detected && NormalizedSuffix(n) == detected
  {
    if name != "" {
      StemNonEmpty(name);
      AppendExt(Stem(name), detected);
      LowerUnchanged(detected);
    }
  }

  /** `fix_extension`: keeps the path when its normalised suffix is the detected
      extension, and otherwise replaces the suffix by the detected extension;
      `None` where `with_suffix` raises (an empty name). */
  function FixExtension(p: Path, detected: string): (r: Option<Path>)
    requires IsImageExt(detected)
    ensures r.None? <==> p.name == ""
    ensures r.Some? ==> r.value.dir == p.dir && Stem(r.value.name) == Stem(p.name)
    ensures r.Some? ==> NormalizedSuffix(r.value.name) == detected
    ensures NormalizedSuffix(p.name) == detected ==> r == Some(p)
    ensures r.Some? && NormalizedSuffix(p.name) != detected ==> Suffix(r.value.name) == detected
  {
    if NormalizedSuffix(p.name) != detected then
      ImageExtIsPlain(detected);
      ReplacedSuffix(p.name, detected);
      WithSuffix(p, detected)
    else
      EmptyNameNoSuffix();
      Some(p)
  }

  /** An empty name has no suffix, so it never matches a detected extension. */
  lemma EmptyNameNoSuffix()
    ensures NormalizedSuffix("") == ""
  {
    assert LastIndex("", '.') == -1;
    assert Suffix("") == "";
  }

  /** Correcting the extension a second time changes nothing. */
  lemma FixExtensionIdempotent(p: Path, detected: string)
    requires IsImageExt(detected) && p.name != ""
    ensures FixExtension(FixExtension(p, detected).value, detected) == FixExtension(p, detected)
  {
  }
}
