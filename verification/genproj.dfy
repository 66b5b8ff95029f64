/**
 The project generator: it keeps the C++ sources and headers of a directory
 walk, derives for each one the name written to the project file and the
 filter (grouping folder) written to the filters file, and collects every
 filter together with all of its backslash-separated ancestors.
 */
module Genproj {
  import opened GoStrings
  import opened GoFilepath

  /** The separator of filter names and remapped file names in the generated project. */
  const Backslash := '\\'

  /** The separator of the property-sheet list given on the command line. */
  const Comma := ','

  /** One compiled file: its name in the project and the filter it is shown under. */
  datatype ProjectFile = ProjectFile(name: string, filter: string)

  /** What the templates are rendered from. */
  datatype Project = Project(filters: set<string>, files: seq<ProjectFile>, propertySheets: seq<string>)

  /**
   The generator slices every kept path at `len(rootAbs)+1`; a path no longer
   than the root makes that slice fail, which ends the run before anything is
   written. The error names the position of the path among the kept files.
   */
  datatype BuildError = SliceOutOfRange(index: nat, path: string)

  datatype Result<T> = Success(value: T) | Failure(error: BuildError)

  // ---------------------------------------------------------------------------
  // findFiles
  // ---------------------------------------------------------------------------

  /** The filter of findFiles: the extension of the path is ".cpp" or ".h". */
  predicate IsSourceFile(path: string) {
    Ext(path) == ".cpp" || Ext(path) == ".h"
  }

  predicate HasSuffix(s: string, suffix: string) {
    |suffix| <= |s| && s[|s| - |suffix|..] == suffix
  }

  /**
   findFiles with the directory walk given as the sequence of paths it visits:
   the visited paths that pass the filter, in the order they were visited.
   Directories are visited too and are filtered by name like files.
   */
  function FindFiles(walked: seq<string>): (files: seq<string>)
    ensures |files| <= |walked|
    ensures forall p :: p in files <==> p in walked && IsSourceFile(p)
    decreases |walked|
  {
    if |walked| == 0 then []
    else
      var last := walked[|walked| - 1];
      var rest := FindFiles(walked[..|walked| - 1]);
      assert walked == walked[..|walked| - 1] + [last];
      if IsSourceFile(last) then rest + [last] else rest
  }

  /** Filtering a walk piece by piece gives the same list as filtering it whole. */
  lemma {:induction false} FindFilesAppend(a: seq<string>, b: seq<string>)
    ensures FindFiles(a + b) == FindFiles(a) + FindFiles(b)
    decreases |b|
  {
    if |b| == 0 {
      assert a + b == a;
    } else {
      var b' := b[..|b| - 1];
      assert a + b == (a + b') + [b[|b| - 1]];
      assert (a + b)[..|a + b| - 1] == a + b';
      FindFilesAppend(a, b');
    }
  }

  /** A path is kept exactly when it ends in ".cpp" or in ".h". */
  lemma SourceFileBySuffix(path: string)
    ensures IsSourceFile(path) <==> HasSuffix(path, ".cpp") || HasSuffix(path, ".h")
  {
    if HasSuffix(path, ".cpp") {
      ExtOfSuffix(path, ".cpp");
    } else if HasSuffix(path, ".h") {
      ExtOfSuffix(path, ".h");
    }
  }

  /** A path ending in a dot followed by dot- and separator-free text has that ending as its extension. */
  lemma ExtOfSuffix(path: string, suffix: string)
    requires HasSuffix(path, suffix)
    requires |suffix| > 0 && suffix[0] == '.'
    requires forall m :: 0 < m < |suffix| ==> suffix[m] != '.' && suffix[m] != Separator
    ensures Ext(path) == suffix
  {
  }

  // ---------------------------------------------------------------------------
  // The per-file loop of main
  // ---------------------------------------------------------------------------

  /**
   The root-relative name: the path with as many characters cut off as the
   root and one separator have. Only for a path that starts with the root and
   a separator is it the part of the path below the root.
   */
  function RelativeName(rootAbs: string, path: string): (name: string)
    requires |rootAbs| < |path|
    ensures |name| == |path| - |rootAbs| - 1
    ensures path == path[..|rootAbs| + 1] + name
    ensures path[..|rootAbs| + 1] == rootAbs + [Separator] ==> path == rootAbs + [Separator] + name
  {
    path[|rootAbs| + 1..]
  }

  /**
   The project entry for one kept path. Without a map root the name is the
   path as walked and the filter its root-relative directory. With a map
   root the name is the map root joined to the root-relative name, and the
   filter the root-relative directory (without the map root), both with
   every '/' turned into '\'.
   */
  function MakeEntry(rootAbs: string, mapRoot: string, path: string): (entry: ProjectFile)
    requires |rootAbs| < |path|
    ensures mapRoot == "" ==> entry.name == path
    ensures mapRoot == "" ==> entry.filter == Dir(RelativeName(rootAbs, path))
    ensures mapRoot != "" ==> Separator !in entry.name && Separator !in entry.filter
    ensures mapRoot != "" ==> |entry.name| == |mapRoot| + 1 + |RelativeName(rootAbs, path)|
    ensures mapRoot != "" ==> |entry.filter| == |Dir(RelativeName(rootAbs, path))|
  {
    var name := RelativeName(rootAbs, path);
    var dir := Dir(name);
    if mapRoot != "" then
      ProjectFile(ReplaceAll(mapRoot + [Separator] + name, Separator, Backslash),
                  ReplaceAll(dir, Separator, Backslash))
    else
      ProjectFile(path, dir)
  }

  /** The strings a filter is cut down to at each of its backslashes. */
  function Cuts(filter: string): set<string> {
    set i | 0 <= i < |filter| && filter[i] == Backslash :: filter[..i]
  }

  /** A filter and all of its backslash-separated ancestors. */
  function Ancestors(filter: string): set<string> {
    {filter} + Cuts(filter)
  }

  /** Every filter of the given entries together with all of its ancestors. */
  function FilterSet(entries: seq<ProjectFile>): set<string> {
    set k, f | 0 <= k < |entries| && f in Ancestors(entries[k].filter) :: f
  }

  /**
   The inner loop of main: insert the filter, cut it at its last backslash,
   and repeat until no backslash is left.
   */
  method AddAncestors(filters: set<string>, filter: string) returns (result: set<string>)
    ensures result == filters + Ancestors(filter)
  {
    result := filters;
    var dir := filter;
    while true
      invariant |dir| <= |filter| && dir == filter[..|dir|]
      invariant dir == filter || filter[|dir|] == Backslash
      invariant result == filters
        + (if dir == filter then {} else {filter})
        + (set i | |dir| < i < |filter| && filter[i] == Backslash :: filter[..i])
      decreases |dir|
    {
      result := result + {dir};
      var pos := LastIndex(dir, Backslash);
      if pos == -1 {
        break;
      }
      dir := dir[..pos];
    }
  }

  /** Adding one entry adds exactly its filter and that filter's ancestors. */
  lemma FilterSetAppend(entries: seq<ProjectFile>, entry: ProjectFile)
    ensures FilterSet(entries + [entry]) == FilterSet(entries) + Ancestors(entry.filter)
  {
    var all := entries + [entry];
    assert all[|entries|] == entry;
    forall f | f in FilterSet(all)
      ensures f in FilterSet(entries) + Ancestors(entry.filter)
    {
      var k :| 0 <= k < |all| && f in Ancestors(all[k].filter);
      if k < |entries| {
        assert all[k] == entries[k];
      }
    }
    forall f | f in FilterSet(entries)
      ensures f in FilterSet(all)
    {
      var k :| 0 <= k < |entries| && f in Ancestors(entries[k].filter);
      assert all[k] == entries[k];
    }
  }

  /** One turn of the loop of main: append the entry, then insert its filter and the filter's ancestors. */
  method AppendEntry(entries: seq<ProjectFile>, filters: set<string>, entry: ProjectFile)
    returns (entries': seq<ProjectFile>, filters': set<string>)
    requires filters == FilterSet(entries)
    ensures entries' == entries + [entry]
    ensures filters' == FilterSet(entries')
  {
    FilterSetAppend(entries, entry);
    filters' := AddAncestors(filters, entry.filter);
    entries' := entries + [entry];
  }

  /**
   The loop of main over the kept paths: make one entry per path, in order,
   inserting each filter with its ancestors, then split the property-sheet
   list at its commas. The run stops at the first path that is not longer
   than the root.
   */
  method BuildProject(rootAbs: string, mapRoot: string, files: seq<string>, propertySheets: string)
    returns (result: Result<Project>)
    ensures result.Failure? <==> exists k :: 0 <= k < |files| && |files[k]| <= |rootAbs|
    ensures result.Failure? ==>
      && result.error.index < |files|
      && result.error.path == files[result.error.index]
      && |result.error.path| <= |rootAbs|
      && forall k :: 0 <= k < result.error.index ==> |files[k]| > |rootAbs|
    ensures result.Success? ==>
      && |result.value.files| == |files|
      && forall k :: 0 <= k < |files| ==>
           |files[k]| > |rootAbs| && result.value.files[k] == MakeEntry(rootAbs, mapRoot, files[k])
    ensures result.Success? ==> result.value.filters == FilterSet(result.value.files)
    ensures result.Success? ==> result.value.propertySheets == Split(propertySheets, Comma)
  {
    var entries: seq<ProjectFile> := [];
    var filters: set<string> := {};
    var k := 0;
    while k < |files|
      invariant 0 <= k <= |files|
      invariant forall j :: 0 <= j < k ==> |files[j]| > |rootAbs|
      invariant |entries| == k
      invariant forall j :: 0 <= j < k ==> entries[j] == MakeEntry(rootAbs, mapRoot, files[j])
      invariant filters == FilterSet(entries)
    {
      if |files[k]| <= |rootAbs| {
        return Failure(SliceOutOfRange(k, files[k]));
      }
      var entry := MakeEntry(rootAbs, mapRoot, files[k]);
      entries, filters := AppendEntry(entries, filters, entry);
      k := k + 1;
    }
    var project := Project(filters, entries, Split(propertySheets, Comma));
    assert project.files == entries;
    return Success(project);
  }

  /**
   main walks the root as given on the command line (main.go:48) but cuts at
   the length of its absolute form. With the default root "." the walk
   reports paths relative to the working directory, which are shorter by
   the absolute root and a separator: each is either too short to cut, so
   the run fails, or cut to something other than its path below the root.
   */
  lemma DefaultRootMiscutsNames(rootAbs: string, rel: string)
    ensures |WalkPath(".", rel)| <= |rootAbs| || RelativeName(rootAbs, WalkPath(".", rel)) != rel
  {
  }

  /**
   Walking the absolute root instead, every entry below it is reported as
   the root, a separator and its relative path, and the cut gives back the
   relative path exactly, with or without a map root.
   */
  lemma AbsoluteRootCutsNames(rootAbs: string, mapRoot: string, rel: string)
    requires |rootAbs| > 1 && rootAbs[0] == Separator
    ensures WalkPath(rootAbs, rel) == rootAbs + [Separator] + rel
    ensures RelativeName(rootAbs, WalkPath(rootAbs, rel)) == rel
    ensures mapRoot == "" ==> MakeEntry(rootAbs, mapRoot, WalkPath(rootAbs, rel)).filter == Dir(rel)
  {
    var path := WalkPath(rootAbs, rel);
    assert path[..|rootAbs| + 1] == rootAbs + [Separator];
  }

  /** main: the walk filtered by findFiles, then the loop over the kept paths. */
  method GenerateProject(rootAbs: string, mapRoot: string, walked: seq<string>, propertySheets: string)
    returns (result: Result<Project>)
    ensures var files := FindFiles(walked);
      result.Success? ==>
        && |result.value.files| == |files|
        && forall k :: 0 <= k < |files| ==>
             |files[k]| > |rootAbs| && result.value.files[k] == MakeEntry(rootAbs, mapRoot, files[k])
    ensures result.Success? ==> result.value.filters == FilterSet(result.value.files)
    ensures result.Success? ==> result.value.propertySheets == Split(propertySheets, Comma)
    ensures result.Failure? <==> exists p :: p in walked && IsSourceFile(p) && |p| <= |rootAbs|
  {
    var files := FindFiles(walked);
    result := BuildProject(rootAbs, mapRoot, files, propertySheets);
  }
}
