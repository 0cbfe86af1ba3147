/**
 * The preset logic of `generate_with_preset.py`: the directory search path,
 * finding and loading presets by name, combining several presets, composing
 * the prompt, listing presets, choosing the SVG palette and the background
 * step after saving.
 *
 * The file system is abstract: a map from directory paths that exist to
 * their listings, a listing being the directory's (file name, content)
 * pairs in whatever order the system returns them.
 */
module GenerateWithPreset {
  import opened Base
  import opened Text
  import opened Paths

  /** A directory listing: (file name, content) pairs. */
  type Listing = seq<(string, string)>

  /** The directories that exist, with their listings. */
  type Directories = map<string, Listing>

  /** A directory on the search path. */
  datatype Location = Location(path: string, files: Listing)

  /** The project-local preset directories, relative to the working directory, in priority order. */
  const CwdPresetDirs: seq<string> := ["code/docs/presets", "docs/presets", "design/presets", "presets"]

  /** The candidate paths that exist, in candidate order. */
  function Present(paths: seq<string>, fs: Directories): (r: seq<Location>)
    ensures forall i :: 0 <= i < |r| ==> r[i].path in paths && r[i].path in fs && r[i].files == fs[r[i].path]
  {
    if paths == [] then []
    else
      var last := paths[|paths| - 1];
      Present(paths[..|paths| - 1], fs) + (if last in fs then [Location(last, fs[last])] else [])
  }

  /** Every candidate that exists is kept. */
  lemma {:induction false} PresentComplete(paths: seq<string>, fs: Directories, p: string)
    requires p in paths && p in fs
    ensures exists i :: 0 <= i < |Present(paths, fs)| && Present(paths, fs)[i].path == p
  {
    var init := paths[..|paths| - 1];
    var r := Present(paths, fs);
    if p != paths[|paths| - 1] {
      assert p in init;
      PresentComplete(init, fs, p);
      var i :| 0 <= i < |Present(init, fs)| && Present(init, fs)[i].path == p;
      assert r[i] == Present(init, fs)[i];
    } else {
      assert r[|r| - 1].path == p;
    }
  }

  /** The search path: the project directories that exist, then the directory
      named by the environment variable when it is set, non-empty and exists,
      then the built-in directory when it exists. */
  function SearchPath(fs: Directories, envDir: Option<string>, builtin: string): seq<Location> {
    Present(CwdPresetDirs, fs)
    + (if envDir.Some? && envDir.value != "" && envDir.value in fs then [Location(envDir.value, fs[envDir.value])] else [])
    + (if builtin in fs then [Location(builtin, fs[builtin])] else [])
  }

  /** `get_preset_dirs`. */
  method GetPresetDirs(fs: Directories, envDir: Option<string>, builtin: string) returns (dirs: seq<Location>)
    ensures dirs == SearchPath(fs, envDir, builtin)
  {
    dirs := [];
    for k := 0 to |CwdPresetDirs|
      invariant dirs == Present(CwdPresetDirs[..k], fs)
    {
      assert CwdPresetDirs[..k + 1][..k] == CwdPresetDirs[..k];
      var candidate := CwdPresetDirs[k];
      if candidate in fs {
        dirs := dirs + [Location(candidate, fs[candidate])];
      }
    }
    assert CwdPresetDirs[..|CwdPresetDirs|] == CwdPresetDirs;
    if envDir.Some? && envDir.value != "" && envDir.value in fs {
      dirs := dirs + [Location(envDir.value, fs[envDir.value])];
    }
    if builtin in fs {
      dirs := dirs + [Location(builtin, fs[builtin])];
    }
  }

  /** Every directory on the search path exists with its own listing; every
      project directory that exists is on it, ahead of the environment and
      built-in directories. */
  lemma SearchPathOrder(fs: Directories, envDir: Option<string>, builtin: string)
    ensures var dirs := SearchPath(fs, envDir, builtin);
      (forall i :: 0 <= i < |dirs| ==> dirs[i].path in fs && dirs[i].files == fs[dirs[i].path])
      && (forall p :: p in CwdPresetDirs && p in fs ==>
            exists i :: 0 <= i < |Present(CwdPresetDirs, fs)| && dirs[i].path == p)
      && (builtin in fs ==> dirs[|dirs| - 1] == Location(builtin, fs[builtin]))
  {
    var dirs := SearchPath(fs, envDir, builtin);
    var cwd := Present(CwdPresetDirs, fs);
    assert forall i :: 0 <= i < |cwd| ==> dirs[i] == cwd[i];
    forall p | p in CwdPresetDirs && p in fs
      ensures exists i :: 0 <= i < |cwd| && dirs[i].path == p
    {
      PresentComplete(CwdPresetDirs, fs, p);
    }
  }

  // ----------------------------------------------------------------- lookup

  /** Whether a listing holds a file of that name. */
  predicate HasFile(files: Listing, name: string) {
    exists i :: 0 <= i < |files| && files[i].0 == name
  }

  /** The content of the named file. */
  function FileContent(files: Listing, name: string): (r: Option<string>)
    ensures r.Some? <==> HasFile(files, name)
    ensures r.Some? ==> exists i :: 0 <= i < |files| && files[i] == (name, r.value)
  {
    if files == [] then None
    else if files[0].0 == name then Some(files[0].1)
    else
      ListingTail(files, name);
      FileContent(files[1..], name)
  }

  /** A listing is its first entry followed by the rest. */
  lemma ListingTail(files: Listing, name: string)
    requires files != []
    ensures HasFile(files, name) <==> files[0].0 == name || HasFile(files[1..], name)
    ensures forall v :: (exists i :: 0 <= i < |files[1..]| && files[1..][i] == (name, v)) ==>
      exists i :: 0 <= i < |files| && files[i] == (name, v)
  {
    if HasFile(files, name) && files[0].0 != name {
      var i :| 0 <= i < |files| && files[i].0 == name;
      assert files[1..][i - 1].0 == name;
    }
    forall v | exists i :: 0 <= i < |files[1..]| && files[1..][i] == (name, v)
      ensures exists i :: 0 <= i < |files| && files[i] == (name, v)
    {
      var i :| 0 <= i < |files[1..]| && files[1..][i] == (name, v);
      assert files[i + 1] == (name, v);
    }
  }

  /** The file name a preset is stored under: ".txt" is added unless present. */
  function PresetFileName(name: string): (f: string)
    ensures EndsWith(f, ".txt")
    ensures EndsWith(name, ".txt") ==> f == name
    ensures !EndsWith(name, ".txt") ==> f == name + ".txt"
  {
    if EndsWith(name, ".txt") then name else name + ".txt"
  }

  /** A name is normalised once: the file name of a file name is itself. */
  lemma PresetFileNameIdempotent(name: string)
    ensures PresetFileName(PresetFileName(name)) == PresetFileName(name)
  {
  }

  /** `find_preset`: the position on the search path of the first directory
      holding the preset's file, if any. */
  function FindPreset(name: string, dirs: seq<Location>): (r: Option<nat>)
    ensures r.None? <==> forall k :: 0 <= k < |dirs| ==> !HasFile(dirs[k].files, PresetFileName(name))
    ensures r.Some? ==> r.value < |dirs| && HasFile(dirs[r.value].files, PresetFileName(name))
    ensures r.Some? ==> forall k :: 0 <= k < r.value ==> !HasFile(dirs[k].files, PresetFileName(name))
  {
    if dirs == [] then None
    else if HasFile(dirs[0].files, PresetFileName(name)) then Some(0)
    else
      match FindPreset(name, dirs[1..])
      case None => None
      case Some(k) => Some(k + 1)
  }

  /** A directory placed ahead of the search path shadows every later one. */
  lemma FindPresetShadowed(name: string, first: Location, dirs: seq<Location>)
    requires HasFile(first.files, PresetFileName(name))
    ensures FindPreset(name, [first] + dirs) == Some(0)
  {
  }

  /** `load_preset`: the stripped content of the preset's file; `None` where the
      source exits with status 1 ("Preset ... not found"). */
  function LoadPreset(name: string, dirs: seq<Location>): (r: Option<string>)
    ensures r.None? <==> FindPreset(name, dirs).None?
    ensures r.Some? ==> IsStripped(r.value)
  {
    match FindPreset(name, dirs)
    case None => None
    case Some(k) =>
      var content := FileContent(dirs[k].files, PresetFileName(name)).value;
      StripIsStripped(content);
      Some(Strip(content))
  }

  // -------------------------------------------------------------- combining

  /** The stripped, non-empty pieces, in order. */
  function NonEmptyStripped(pieces: seq<string>): (r: seq<string>)
    ensures |r| <= |pieces|
    ensures forall n :: n in r ==> n != "" && IsStripped(n)
  {
    if pieces == [] then []
    else
      StripIsStripped(pieces[0]);
      (if Strip(pieces[0]) != "" then [Strip(pieces[0])] else []) + NonEmptyStripped(pieces[1..])
  }

  /** The preset names of a comma-separated list: each piece stripped, empty
      pieces dropped, duplicates and order kept. */
  function PresetNames(spec: string): (names: seq<string>)
    ensures forall n :: n in names ==> n != "" && IsStripped(n) && ',' !in n
  {
    var pieces := Split(spec, ',');
    SplitPiecesFree(spec, ',');
    NamesComeFromPieces(pieces, ',');
    NonEmptyStripped(pieces)
  }

  /** Each kept name is a stripped piece, so it has no character its piece lacks. */
  lemma {:induction false} NamesComeFromPieces(pieces: seq<string>, c: char)
    requires forall p :: p in pieces ==> c !in p
    ensures forall n :: n in NonEmptyStripped(pieces) ==> c !in n
  {
    if pieces != [] {
      NamesComeFromPieces(pieces[1..], c);
      StripKeepsAbsent(pieces[0], c);
    }
  }

  /** Names that are already stripped and non-empty pass through unchanged. */
  lemma {:induction false} NonEmptyStrippedKeeps(names: seq<string>)
    requires forall n :: n in names ==> n != "" && IsStripped(n)
    ensures NonEmptyStripped(names) == names
  {
    if names != [] {
      assert names[0] in names;
      StripStripped(names[0]);
      forall n | n in names[1..] ensures n != "" && IsStripped(n) {
        assert n in names;
      }
      NonEmptyStrippedKeeps(names[1..]);
      assert [names[0]] + names[1..] == names;
    }
  }

  /** Joining preset names with commas and reading them back gives the names. */
  lemma PresetNamesRoundTrip(names: seq<string>)
    requires forall n :: n in names ==> n != "" && IsStripped(n) && ',' !in n
    ensures PresetNames(Join(names, [','])) == names
  {
    if names == [] {
      assert Split([], ',') == [[]];
      assert Strip([]) == [];
    } else {
      SplitJoin(names, ',');
      NonEmptyStrippedKeeps(names);
    }
  }

  /** The block one preset contributes. */
  function PresetBlock(name: string, content: string): string {
    "# Preset: " + name + "\n" + content
  }

  /** The blocks of the named presets, each loaded by `load`, or `None` when
      one is missing. */
  function PresetBlocks(names: seq<string>, load: string -> Option<string>): Option<seq<string>>
  {
    if names == [] then Some([])
    else
      var init := PresetBlocks(names[..|names| - 1], load);
      var last := load(names[|names| - 1]);
      if init.Some? && last.Some? then
        Some(init.value + [PresetBlock(names[|names| - 1], last.value)])
      else
        None
  }

  /** The blocks exist exactly when every name loads, and then there is one
      labelled block per name, in order, duplicates included. */
  lemma {:induction false} PresetBlocksSpec(names: seq<string>, load: string -> Option<string>)
    ensures var r := PresetBlocks(names, load);
      (r.Some? <==> forall i :: 0 <= i < |names| ==> load(names[i]).Some?)
      && (r.Some? ==> (|r.value| == |names|
          && forall i :: 0 <= i < |names| ==> r.value[i] == PresetBlock(names[i], load(names[i]).value)))
  {
    if names != [] {
      var init := names[..|names| - 1];
      PresetBlocksSpec(init, load);
      assert forall i :: 0 <= i < |init| ==> init[i] == names[i];
    }
  }

  /** Adding one more name adds its block, when both it and the earlier names load. */
  lemma PresetBlocksAppend(names: seq<string>, k: nat, load: string -> Option<string>, blocks: seq<string>, content: string)
    requires k < |names| && PresetBlocks(names[..k], load) == Some(blocks) && load(names[k]) == Some(content)
    ensures PresetBlocks(names[..k + 1], load) == Some(blocks + [PresetBlock(names[k], content)])
  {
    assert names[..k + 1][..k] == names[..k];
  }

  /** A name that does not load after names that all do is the first missing
      one, and then there is no combined text. */
  lemma {:induction false} FirstMissingPreset(names: seq<string>, i: nat, load: string -> Option<string>)
    requires i < |names| && PresetBlocks(names[..i], load).Some? && load(names[i]).None?
    ensures forall j :: 0 <= j < i ==> load(names[j]).Some?
    ensures PresetBlocks(names, load).None?
  {
    PresetBlocksSpec(names[..i], load);
    assert forall j :: 0 <= j < i ==> names[..i][j] == names[j];
    PresetBlocksSpec(names, load);
  }

  /** How `load_presets` ends: with the combined text, or with exit status 1
      for the first name that is not found. */
  datatype PresetLoad = PresetText(text: string) | PresetNotFound(name: string)

  /** `load_presets`: the blocks of the named presets joined by blank lines, ""
      when the list names none, or the first name that is not found. */
  method LoadPresets(spec: string, dirs: seq<Location>) returns (r: PresetLoad)
    ensures r.PresetNotFound? ==> LoadPreset(r.name, dirs).None? && exists i :: (0 <= i < |PresetNames(spec)|
      && PresetNames(spec)[i] == r.name && PresetBlocks(PresetNames(spec)[..i], n => LoadPreset(n, dirs)).Some?)
    ensures r.PresetText? ==> PresetBlocks(PresetNames(spec), n => LoadPreset(n, dirs)).Some?
    ensures r.PresetText? ==> r.text == Join(PresetBlocks(PresetNames(spec), n => LoadPreset(n, dirs)).value, "\n\n")
  {
    var names := PresetNames(spec);
    ghost var load := n => LoadPreset(n, dirs);
    if names == [] {
      return PresetText("");
    }
    var contents: seq<string> := [];
    for k := 0 to |names|
      invariant PresetBlocks(names[..k], load) == Some(contents)
    {
      var content := LoadPreset(names[k], dirs);
      if content.None? {
        return PresetNotFound(names[k]);
      }
      PresetBlocksAppend(names, k, load, contents, content.value);
      contents := contents + [PresetBlock(names[k], content.value)];
    }
    assert names[..|names|] == names;
    return PresetText(Join(contents, "\n\n"));
  }

  // ---------------------------------------------------------------- prompt

  /** The block between the preset text and the user's request. */
  const RequestDelimiter := "\n\n---\n\nUSER REQUEST:\n"

  /** `build_prompt_with_presets`: the prompt itself when there is no preset
      text; otherwise the preset text, the delimiter block and the prompt. */
  function BuildPromptWithPresets(presetContent: string, userPrompt: string): (r: string)
    ensures presetContent == "" ==> r == userPrompt
    ensures presetContent != "" ==> |r| == |presetContent| + |RequestDelimiter| + |userPrompt|
    ensures presetContent != "" ==> StartsWith(r, presetContent) && EndsWith(r, userPrompt)
    ensures presetContent != "" ==>
      r[|presetContent|..|presetContent| + |RequestDelimiter|] == RequestDelimiter
  {
    if presetContent == "" then userPrompt
    else presetContent + RequestDelimiter + userPrompt
  }

  /** Given the preset text, the user's prompt is recovered from the composed
      prompt: it is what follows the preset text and the delimiter. */
  lemma UserPromptRecoverable(presetContent: string, userPrompt: string)
    ensures var r := BuildPromptWithPresets(presetContent, userPrompt);
      var start := if presetContent == "" then 0 else |presetContent| + |RequestDelimiter|;
      start <= |r| && r[start..] == userPrompt
  {
  }

  // ---------------------------------------------------------------- listing

  /** The file names `glob("*.txt")` matches, in listing order. */
  function GlobTxt(files: Listing): (r: seq<string>)
    ensures forall f :: f in r <==> EndsWith(f, ".txt") && HasFile(files, f)
  {
    if files == [] then []
    else
      var rest := GlobTxt(files[1..]);
      assert forall f :: HasFile(files, f) <==> files[0].0 == f || HasFile(files[1..], f) by {
        forall f ensures HasFile(files, f) <==> files[0].0 == f || HasFile(files[1..], f) {
          ListingTail(files, f);
        }
      }
      (if EndsWith(files[0].0, ".txt") then [files[0].0] else []) + rest
  }

  /** The description shown for a preset: its first line, cut to 60 characters. */
  function Describe(content: string): (d: string)
    ensures var line := Split(content, '\n')[0];
      |d| == (if |line| <= 60 then |line| else 60) && d == line[..|d|]
  {
    var line := Split(content, '\n')[0];
    if |line| <= 60 then line else line[..60]
  }

  /** One listed preset: the directory's position on the search path, the
      file, the preset name (the file's stem) and its description. */
  datatype PresetEntry = PresetEntry(dir: nat, file: string, name: string, description: string)

  /** How `list_presets` ends: no directory on the search path, or the entries it lists. */
  datatype PresetList = NoPresetDirectories | Presets(entries: seq<PresetEntry>)

  /** Whether a directory holds a preset file with that stem. */
  ghost predicate HoldsPreset(loc: Location, name: string) {
    exists f :: f in GlobTxt(loc.files) && Stem(f) == name
  }

  /** An entry describes a preset file of its directory. */
  predicate EntryOf(dirs: seq<Location>, e: PresetEntry) {
    e.dir < |dirs| && e.file in GlobTxt(dirs[e.dir].files) && e.name == Stem(e.file)
    && FileContent(dirs[e.dir].files, e.file).Some?
    && e.description == Describe(FileContent(dirs[e.dir].files, e.file).value)
  }

  /** No directory ahead of the entry's holds a preset of the same name. */
  ghost predicate FromFirstHolder(dirs: seq<Location>, e: PresetEntry)
    requires e.dir <= |dirs|
  {
    forall k :: 0 <= k < e.dir ==> !HoldsPreset(dirs[k], e.name)
  }

  predicate DistinctNames(es: seq<PresetEntry>) {
    forall i, j :: 0 <= i < j < |es| ==> es[i].name != es[j].name
  }

  /** Directories in search order; within a directory, files in sorted order. */
  predicate InListingOrder(es: seq<PresetEntry>) {
    forall i, j :: 0 <= i < j < |es| ==>
      es[i].dir < es[j].dir || (es[i].dir == es[j].dir && Less(es[i].file, es[j].file))
  }

  /** Every preset file of the first `upto` directories has its name listed. */
  ghost predicate Covers(dirs: seq<Location>, upto: nat, es: seq<PresetEntry>)
    requires upto <= |dirs|
  {
    forall k :: 0 <= k < upto ==> CoversDir(dirs[k], es)
  }

  /** Every preset file of the directory has its name listed. */
  ghost predicate CoversDir(loc: Location, es: seq<PresetEntry>) {
    forall f :: f in GlobTxt(loc.files) ==> exists i :: 0 <= i < |es| && es[i].name == Stem(f)
  }

  /** What the listing promises once the first `upto` directories are done. */
  ghost predicate ListedUpTo(dirs: seq<Location>, upto: nat, es: seq<PresetEntry>, seen: set<string>)
    requires upto <= |dirs|
  {
    (forall i :: 0 <= i < |es| ==> es[i].dir < upto && EntryOf(dirs, es[i]) && FromFirstHolder(dirs, es[i]))
    && DistinctNames(es) && InListingOrder(es) && Covers(dirs, upto, es)
    && (forall n :: n in seen <==> exists i :: 0 <= i < |es| && es[i].name == n)
  }

  /** `list_presets`: each preset name appears once, taken from the first
      directory on the search path that holds it, with directories in search
      order and each directory's files in sorted order; every preset file of
      every directory has its name listed. */
  method ListPresets(dirs: seq<Location>) returns (r: PresetList)
    ensures r == NoPresetDirectories <==> dirs == []
    ensures r.Presets? ==> ListedUpTo(dirs, |dirs|, r.entries, set i | 0 <= i < |r.entries| :: r.entries[i].name)
  {
    if dirs == [] {
      return NoPresetDirectories;
    }
    var seen: set<string> := {};
    var entries: seq<PresetEntry> := [];
    for d := 0 to |dirs|
      invariant ListedUpTo(dirs, d, entries, seen)
    {
      entries, seen := ListDirectory(dirs, d, entries, seen);
    }
    assert seen == set i | 0 <= i < |entries| :: entries[i].name;
    return Presets(entries);
  }

  /** The names seen so far are exactly the names listed. */
  ghost predicate SeenNames(es: seq<PresetEntry>, seen: set<string>) {
    forall n :: n in seen <==> exists i :: 0 <= i < |es| && es[i].name == n
  }

  /** What holds inside directory `d` once its first `k` sorted files are done. */
  ghost predicate ListedInDir(dirs: seq<Location>, d: nat, presets: seq<string>, k: nat,
                              es: seq<PresetEntry>, seen: set<string>)
    requires d < |dirs| && k <= |presets|
  {
    (forall i :: 0 <= i < |es| ==> es[i].dir <= d && EntryOf(dirs, es[i]) && FromFirstHolder(dirs, es[i]))
    && DistinctNames(es) && InListingOrder(es) && Covers(dirs, d, es) && SeenNames(es, seen)
    && (forall j :: 0 <= j < k ==> Stem(presets[j]) in seen)
    && (forall i :: 0 <= i < |es| && es[i].dir == d ==> exists j :: 0 <= j < k && presets[j] == es[i].file)
  }

  /** The body of the outer loop of `list_presets`: lists the not yet seen
      presets of directory `d`, in sorted file order. */
  method ListDirectory(dirs: seq<Location>, d: nat, entries: seq<PresetEntry>, seen: set<string>)
    returns (entries': seq<PresetEntry>, seen': set<string>)
    requires d < |dirs| && ListedUpTo(dirs, d, entries, seen)
    ensures ListedUpTo(dirs, d + 1, entries', seen')
  {
    var presets := Sort(GlobTxt(dirs[d].files));
    entries', seen' := entries, seen;
    StartDirectory(dirs, d, presets, entries, seen);
    for k := 0 to |presets|
      invariant ListedInDir(dirs, d, presets, k, entries', seen')
    {
      entries', seen' := AddPreset(dirs, d, presets, k, entries', seen');
    }
    FinishDirectory(dirs, d, presets, entries', seen');
  }

  /** Nothing of directory `d` is listed before its first file. */
  lemma StartDirectory(dirs: seq<Location>, d: nat, presets: seq<string>, es: seq<PresetEntry>, seen: set<string>)
    requires d < |dirs| && ListedUpTo(dirs, d, es, seen)
    ensures ListedInDir(dirs, d, presets, 0, es, seen)
  {
  }

  /** Once every sorted file of directory `d` is handled, the directory is covered. */
  lemma FinishDirectory(dirs: seq<Location>, d: nat, presets: seq<string>, es: seq<PresetEntry>, seen: set<string>)
    requires d < |dirs| && presets == Sort(GlobTxt(dirs[d].files))
    requires ListedInDir(dirs, d, presets, |presets|, es, seen)
    ensures ListedUpTo(dirs, d + 1, es, seen)
  {
    forall f | f in GlobTxt(dirs[d].files)
      ensures exists i :: 0 <= i < |es| && es[i].name == Stem(f)
    {
      assert f in multiset(GlobTxt(dirs[d].files));
      var j :| 0 <= j < |presets| && presets[j] == f;
      assert Stem(presets[j]) in seen;
    }
    assert CoversDir(dirs[d], es);
  }

  /** The body of the inner loop of `list_presets`: lists the `k`-th sorted
      file of directory `d` unless its name was seen. */
  method AddPreset(dirs: seq<Location>, d: nat, presets: seq<string>, k: nat,
                   entries: seq<PresetEntry>, seen: set<string>)
    returns (entries': seq<PresetEntry>, seen': set<string>)
    requires d < |dirs| && k < |presets| && presets == Sort(GlobTxt(dirs[d].files))
    requires ListedInDir(dirs, d, presets, k, entries, seen)
    ensures ListedInDir(dirs, d, presets, k + 1, entries', seen')
  {
    var file := presets[k];
    assert file in multiset(presets);
    var name := Stem(file);
    if name in seen {
      SkipSeenPreset(dirs, d, presets, k, entries, seen);
      return entries, seen;
    }
    var e := PresetEntry(d, file, name, Describe(FileContent(dirs[d].files, file).value));
    forall q, f | 0 <= q < d && f in GlobTxt(dirs[q].files) ensures Stem(f) != name {
      assert CoversDir(dirs[q], entries);
      var i :| 0 <= i < |entries| && entries[i].name == Stem(f);
      assert Stem(f) in seen;
    }
    forall i | 0 <= i < |entries| && entries[i].dir == d
      ensures Less(entries[i].file, file)
    {
      var j :| 0 <= j < k && presets[j] == entries[i].file;
      assert LessEq(presets[j], presets[k]);
      assert entries[i].name in seen;
    }
    ExtendListing(dirs, d, presets, k, entries, seen, e);
    entries' := entries + [e];
    seen' := seen + {name};
  }

  /** A file whose name was seen adds nothing. */
  lemma SkipSeenPreset(dirs: seq<Location>, d: nat, presets: seq<string>, k: nat,
                       entries: seq<PresetEntry>, seen: set<string>)
    requires d < |dirs| && k < |presets|
    requires ListedInDir(dirs, d, presets, k, entries, seen) && Stem(presets[k]) in seen
    ensures ListedInDir(dirs, d, presets, k + 1, entries, seen)
  {
    forall i | 0 <= i < |entries| && entries[i].dir == d
      ensures exists j :: 0 <= j < k + 1 && presets[j] == entries[i].file
    {
      var j :| 0 <= j < k && presets[j] == entries[i].file;
    }
  }

  /** Listing the `k`-th file, a preset of directory `d` whose name was not
      seen, no earlier directory holds, and which sorts after the directory's
      listed files. */
  lemma ExtendListing(dirs: seq<Location>, d: nat, presets: seq<string>, k: nat,
                      entries: seq<PresetEntry>, seen: set<string>, e: PresetEntry)
    requires d < |dirs| && k < |presets| && presets == Sort(GlobTxt(dirs[d].files))
    requires ListedInDir(dirs, d, presets, k, entries, seen)
    requires e.dir == d && e.file == presets[k] && e.name == Stem(e.file) && e.name !in seen
    requires FileContent(dirs[d].files, e.file).Some?
    requires e.description == Describe(FileContent(dirs[d].files, e.file).value)
    requires forall q, f :: 0 <= q < d && f in GlobTxt(dirs[q].files) ==> Stem(f) != e.name
    requires forall i :: 0 <= i < |entries| && entries[i].dir == d ==> Less(entries[i].file, e.file)
    ensures ListedInDir(dirs, d, presets, k + 1, entries + [e], seen + {e.name})
  {
    assert e.file in multiset(presets);
    assert e.file in GlobTxt(dirs[d].files);
    assert EntryOf(dirs, e) && FromFirstHolder(dirs, e);
    ExtendEntries(dirs, d, entries, seen, e);
    ExtendSeen(dirs, d, entries, seen, e);
    ExtendInDir(dirs, d, presets, k, entries, e);
  }

  /** The entries stay valid, distinct and in order. */
  lemma ExtendEntries(dirs: seq<Location>, d: nat, entries: seq<PresetEntry>, seen: set<string>, e: PresetEntry)
    requires d < |dirs| && e.dir == d && EntryOf(dirs, e) && FromFirstHolder(dirs, e)
    requires forall i :: 0 <= i < |entries| ==> entries[i].dir <= d && EntryOf(dirs, entries[i]) && FromFirstHolder(dirs, entries[i])
    requires DistinctNames(entries) && InListingOrder(entries) && SeenNames(entries, seen) && e.name !in seen
    requires forall i :: 0 <= i < |entries| && entries[i].dir == d ==> Less(entries[i].file, e.file)
    ensures var es := entries + [e];
      (forall i :: 0 <= i < |es| ==> es[i].dir <= d && EntryOf(dirs, es[i]) && FromFirstHolder(dirs, es[i]))
      && DistinctNames(es) && InListingOrder(es)
  {
    var es := entries + [e];
    assert forall i :: 0 <= i < |entries| ==> es[i] == entries[i];
    AppendDistinct(entries, seen, e);
    AppendInOrder(entries, d, e);
  }

  /** A name not seen yet keeps the names distinct. */
  lemma AppendDistinct(entries: seq<PresetEntry>, seen: set<string>, e: PresetEntry)
    requires DistinctNames(entries) && SeenNames(entries, seen) && e.name !in seen
    ensures DistinctNames(entries + [e])
  {
    var es := entries + [e];
    forall i, j | 0 <= i < j < |es| ensures es[i].name != es[j].name {
      if j == |entries| {
        assert es[i] == entries[i];
        assert entries[i].name in seen;
      } else {
        assert es[i] == entries[i] && es[j] == entries[j];
      }
    }
  }

  /** An entry of the current directory that sorts after its entries keeps the order. */
  lemma AppendInOrder(entries: seq<PresetEntry>, d: nat, e: PresetEntry)
    requires InListingOrder(entries) && e.dir == d
    requires forall i :: 0 <= i < |entries| ==> entries[i].dir <= d
    requires forall i :: 0 <= i < |entries| && entries[i].dir == d ==> Less(entries[i].file, e.file)
    ensures InListingOrder(entries + [e])
  {
    var es := entries + [e];
    forall i, j | 0 <= i < j < |es|
      ensures es[i].dir < es[j].dir || (es[i].dir == es[j].dir && Less(es[i].file, es[j].file))
    {
      assert es[i] == entries[i];
      if j < |entries| {
        assert es[j] == entries[j];
      }
    }
  }

  /** The seen set grows by the new name and coverage of earlier directories is kept. */
  lemma ExtendSeen(dirs: seq<Location>, d: nat, entries: seq<PresetEntry>, seen: set<string>, e: PresetEntry)
    requires d < |dirs| && Covers(dirs, d, entries) && SeenNames(entries, seen)
    ensures Covers(dirs, d, entries + [e]) && SeenNames(entries + [e], seen + {e.name})
  {
    var es := entries + [e];
    forall q | 0 <= q < d ensures CoversDir(dirs[q], es) {
      assert CoversDir(dirs[q], entries);
      forall f | f in GlobTxt(dirs[q].files) ensures exists i :: 0 <= i < |es| && es[i].name == Stem(f) {
        var i :| 0 <= i < |entries| && entries[i].name == Stem(f);
        assert es[i].name == Stem(f);
      }
    }
    forall n ensures n in seen + {e.name} <==> exists i :: 0 <= i < |es| && es[i].name == n {
      if n in seen {
        var i :| 0 <= i < |entries| && entries[i].name == n;
        assert es[i].name == n;
      }
      if n == e.name {
        assert es[|entries|].name == n;
      }
      if exists i :: 0 <= i < |es| && es[i].name == n {
        var i :| 0 <= i < |es| && es[i].name == n;
        if i < |entries| {
          assert entries[i].name == n;
        }
      }
    }
  }

  /** The directory's files up to `k` are all seen and its entries come from them. */
  lemma ExtendInDir(dirs: seq<Location>, d: nat, presets: seq<string>, k: nat, entries: seq<PresetEntry>, e: PresetEntry)
    requires d < |dirs| && k < |presets| && e.file == presets[k]
    requires forall i :: 0 <= i < |entries| && entries[i].dir == d ==>
      exists j :: 0 <= j < k && presets[j] == entries[i].file
    ensures var es := entries + [e];
      forall i :: 0 <= i < |es| && es[i].dir == d ==> exists j :: 0 <= j < k + 1 && presets[j] == es[i].file
  {
    var es := entries + [e];
    forall i | 0 <= i < |es| && es[i].dir == d
      ensures exists j :: 0 <= j < k + 1 && presets[j] == es[i].file
    {
      if i < |entries| {
        assert es[i] == entries[i];
        var j :| 0 <= j < k && presets[j] == entries[i].file;
      } else {
        assert presets[k] == es[i].file;
      }
    }
  }

  // ------------------------------------------------------------ SVG palette

  /** The presets that ship with the tool and carry no palette. */
  const BuiltinPresets: set<string> := {"creative", "mobile-ui"}

  /** The names that are not built-in, in order. */
  function ProjectPresets(names: seq<string>): (r: seq<string>)
    ensures forall n :: n in r ==> n in names && n !in BuiltinPresets
  {
    if names == [] then []
    else (if names[0] !in BuiltinPresets then [names[0]] else []) + ProjectPresets(names[1..])
  }

  /** One piece of the comma-separated list at a time: a stripped, non-empty,
      non-built-in piece heads the remaining project presets. */
  lemma ProjectPresetsStep(pieces: seq<string>, k: nat)
    requires k < |pieces|
    ensures var name := Strip(pieces[k]);
      ProjectPresets(NonEmptyStripped(pieces[k..])) ==
        if name != "" && name !in BuiltinPresets then [name] + ProjectPresets(NonEmptyStripped(pieces[k + 1..]))
        else ProjectPresets(NonEmptyStripped(pieces[k + 1..]))
  {
    assert pieces[k..][1..] == pieces[k + 1..];
    var name := Strip(pieces[k]);
    var rest := NonEmptyStripped(pieces[k + 1..]);
    if name != "" {
      assert NonEmptyStripped(pieces[k..]) == [name] + rest;
      assert ([name] + rest)[1..] == rest;
    } else {
      assert NonEmptyStripped(pieces[k..]) == rest;
    }
  }

  /** The palette `main` passes to the SVG conversion: a non-empty
      `--svg-palette` wins; otherwise the first preset name that is not
      built-in; otherwise the `--svg-palette` value as given (absent or ""). */
  method ChooseSvgPalette(svgPalette: Option<string>, preset: Option<string>) returns (palette: Option<string>)
    ensures Given(svgPalette) ==> palette == svgPalette
    ensures !Given(svgPalette) && preset.Some? && ProjectPresets(PresetNames(preset.value)) != [] ==>
      palette == Some(ProjectPresets(PresetNames(preset.value))[0])
    ensures !Given(svgPalette) && (preset.None? || ProjectPresets(PresetNames(preset.value)) == []) ==>
      palette == svgPalette
  {
    palette := svgPalette;
    if !Given(palette) && Given(preset) {
      NamesOfPieces(preset.value);
      var first := FirstProjectPreset(Split(preset.value, ','));
      if first.Some? {
        palette := first;
      }
    } else if preset.Some? && preset.value == "" {
      NoNamesInEmptySpec();
    }
  }

  /** The loop over the comma-separated pieces in `main`: the first stripped,
      non-empty piece that is not a built-in preset. */
  method FirstProjectPreset(pieces: seq<string>) returns (first: Option<string>)
    ensures first.None? <==> ProjectPresets(NonEmptyStripped(pieces)) == []
    ensures first.Some? ==> first.value == ProjectPresets(NonEmptyStripped(pieces))[0]
  {
    ghost var candidates := ProjectPresets(NonEmptyStripped(pieces));
    var k := 0;
    while k < |pieces|
      invariant k <= |pieces|
      invariant candidates == ProjectPresets(NonEmptyStripped(pieces[k..]))
    {
      ProjectPresetsStep(pieces, k);
      var name := Strip(pieces[k]);
      if name != "" && name !in BuiltinPresets {
        return Some(name);
      }
      k := k + 1;
    }
    assert pieces[k..] == [];
    return None;
  }

  /** The preset names are the stripped, non-empty comma-separated pieces. */
  lemma NamesOfPieces(spec: string)
    ensures PresetNames(spec) == NonEmptyStripped(Split(spec, ','))
  {
  }

  /** An empty preset argument names no preset. */
  lemma NoNamesInEmptySpec()
    ensures PresetNames("") == []
  {
    assert Split("", ',') == [[]];
    assert Strip([]) == [];
  }

  // ------------------------------------------------------------- background

  /** The background step after saving: `--remove-bg` (rembg) takes precedence
      over `--remove-white-bg`. */
  datatype BackgroundStep =
    | KeepBackground
      /** rembg writes `target`; the saved raster is deleted when it is another file. */
    | Rembg(source: Path, target: Path, deleteSource: bool)
      /** The luminosity-based removal is asked to write `target`. */
    | RemoveWhite(source: Path, target: Path)

  /** The background step for the saved raster; `None` where `with_suffix`
      raises (an empty name). */
  function ChooseBackgroundStep(removeBg: bool, removeWhiteBg: bool, saved: Path): (r: Option<BackgroundStep>)
    ensures r.None? <==> (removeBg || removeWhiteBg) && saved.name == ""
    ensures r.Some? && removeBg ==>
      r.value.Rembg? && r.value.source == saved && r.value.deleteSource == (r.value.target != saved)
    ensures r.Some? && !removeBg && removeWhiteBg ==> r.value.RemoveWhite? && r.value.source == saved
    ensures r.Some? && !removeBg && !removeWhiteBg ==> r.value == KeepBackground
    ensures r.Some? && !r.value.KeepBackground? ==>
      r.value.target.dir == saved.dir && Suffix(r.value.target.name) == ".png"
      && Stem(r.value.target.name) == Stem(saved.name)
  {
    if !removeBg && !removeWhiteBg then Some(KeepBackground)
    else if saved.name == "" then None
    else
      var target := Path(saved.dir, Stem(saved.name) + ".png");
      StemNonEmpty(saved.name);
      AppendExt(Stem(saved.name), ".png");
      assert WithSuffix(saved, ".png") == Some(target);
      if removeBg then Some(Rembg(saved, target, saved != target))
      else Some(RemoveWhite(saved, target))
  }

  /** rembg keeps the saved raster exactly when it already is the PNG target. */
  lemma RembgKeepsPngSource(saved: Path)
    requires saved.name != "" && Suffix(saved.name) == ".png"
    ensures ChooseBackgroundStep(true, false, saved) == Some(Rembg(saved, saved, false))
  {
    StemAndSuffix(saved.name);
  }
}
