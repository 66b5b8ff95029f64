/**
 What the generator's output means: the names and filters of the entries in
 terms of the root-relative path, and the shape of the filter set.
 */
module GenprojProperties {
  import opened GoStrings
  import opened GoFilepath
  import opened Genproj

  /** Characters other than `from` pass through ReplaceAll untouched. */
  lemma ReplaceAllAbsent(s: string, from: char, to: char)
    requires from !in s
    ensures ReplaceAll(s, from, to) == s
  {
  }

  /** Turning '/' into '\' in `d + "/" + b`, where `b` has no '/', touches `d` and the joint only. */
  lemma ReplaceSeparatorsInJoin(d: string, b: string)
    requires Separator !in b
    ensures ReplaceAll(d + [Separator] + b, Separator, Backslash)
         == ReplaceAll(d, Separator, Backslash) + [Backslash] + b
  {
  }

  /**
   A proof step of EntryInSubdirectory, not a property of the generator:
   re-associating a name built from a head, a directory and a base around
   two backslashes, which the solver does not find unaided there.
   */
  lemma Regroup(name: string, head: string, rest: string, dir: string, base: string)
    requires name == head + [Backslash] + rest
    requires rest == dir + [Backslash] + base
    ensures name == head + [Backslash] + dir + [Backslash] + base
  {
  }

  // ---------------------------------------------------------------------------
  // Entries
  // ---------------------------------------------------------------------------

  /**
   A path under the root: without a map root the name is the walked path;
   with one it is the map root and the root-relative name, each with '/'
   turned into '\', joined by '\'. A file directly under the root is filed
   under ".".
   */
  lemma EntryUnderRoot(rootAbs: string, mapRoot: string, rel: string)
    ensures var e := MakeEntry(rootAbs, mapRoot, rootAbs + [Separator] + rel);
      && (mapRoot == "" ==> e.name == rootAbs + [Separator] + rel)
      && (mapRoot != "" ==>
            e.name == ReplaceAll(mapRoot, Separator, Backslash) + [Backslash] + ReplaceAll(rel, Separator, Backslash))
      && (Separator !in rel ==> e.filter == ".")
  {
    var path := rootAbs + [Separator] + rel;
    assert RelativeName(rootAbs, path) == rel;
    var e := MakeEntry(rootAbs, mapRoot, path);
    if mapRoot != "" {
      assert e.name == ReplaceAll(mapRoot + [Separator] + rel, Separator, Backslash);
      ReplaceAllAppend(mapRoot + [Separator], rel, Separator, Backslash);
      ReplaceAllAppend(mapRoot, [Separator], Separator, Backslash);
      assert ReplaceAll([Separator], Separator, Backslash) == [Backslash];
      if Separator !in rel {
        assert e.filter == ReplaceAll(".", Separator, Backslash);
        ReplaceAllAbsent(".", Separator, Backslash);
      }
    }
  }

  /**
   A file `b` in the root-relative directory `d`: the filter is built from `d`
   alone (with '\' for '/' when a map root is given), the map root is not
   prepended to it; with a map root the name is the map root, the filter and
   `b`, joined by '\'.
   */
  lemma EntryInSubdirectory(rootAbs: string, mapRoot: string, d: string, b: string)
    requires d != ""
    requires Separator !in b
    ensures var e := MakeEntry(rootAbs, mapRoot, rootAbs + [Separator] + d + [Separator] + b);
      && (mapRoot == "" ==> e.filter == d)
      && (mapRoot != "" ==> e.filter == ReplaceAll(d, Separator, Backslash))
      && (mapRoot != "" ==>
            e.name == ReplaceAll(mapRoot, Separator, Backslash) + [Backslash] + e.filter + [Backslash] + b)
  {
    var rel := d + [Separator] + b;
    var path := rootAbs + [Separator] + rel;
    assert rootAbs + [Separator] + d + [Separator] + b == path;
    EntryUnderRoot(rootAbs, mapRoot, rel);
    assert RelativeName(rootAbs, path) == rel;
    DirOfJoin(d, b);
    var e := MakeEntry(rootAbs, mapRoot, path);
    if mapRoot != "" {
      assert e.filter == ReplaceAll(d, Separator, Backslash);
      ReplaceSeparatorsInJoin(d, b);
      var mapped := ReplaceAll(mapRoot, Separator, Backslash);
      assert e.name == mapped + [Backslash] + ReplaceAll(rel, Separator, Backslash);
      Regroup(e.name, mapped, ReplaceAll(rel, Separator, Backslash), e.filter, b);
    }
  }

  /**
   Without a map root the filter is a piece of the walked path (or "."), so a
   path with no backslash gives a filter with no backslash, whose only
   ancestor is the filter itself.
   */
  lemma UnmappedFilterHasNoAncestors(rootAbs: string, path: string)
    requires |rootAbs| < |path|
    requires Backslash !in path
    ensures Backslash !in MakeEntry(rootAbs, "", path).filter
    ensures Ancestors(MakeEntry(rootAbs, "", path).filter) == {MakeEntry(rootAbs, "", path).filter}
  {
  }

  // ---------------------------------------------------------------------------
  // The filter set
  // ---------------------------------------------------------------------------

  /** Every entry's filter is in the set, and so is every cut of it at a backslash. */
  lemma FilterSetComplete(entries: seq<ProjectFile>)
    ensures forall k :: 0 <= k < |entries| ==> entries[k].filter in FilterSet(entries)
    ensures forall k, i ::
      0 <= k < |entries| && 0 <= i < |entries[k].filter| && entries[k].filter[i] == Backslash ==>
        entries[k].filter[..i] in FilterSet(entries)
  {
    forall k | 0 <= k < |entries|
      ensures entries[k].filter in FilterSet(entries)
    {
      assert entries[k].filter in Ancestors(entries[k].filter);
    }
    forall k, i | 0 <= k < |entries| && 0 <= i < |entries[k].filter| && entries[k].filter[i] == Backslash
      ensures entries[k].filter[..i] in FilterSet(entries)
    {
      assert entries[k].filter[..i] in Cuts(entries[k].filter);
      assert entries[k].filter[..i] in Ancestors(entries[k].filter);
    }
  }

  /** Nothing else is in the set: each member is some entry's filter or a backslash cut of one. */
  lemma FilterSetSound(entries: seq<ProjectFile>, f: string)
    requires f in FilterSet(entries)
    ensures exists k :: 0 <= k < |entries| && (f == entries[k].filter || f in Cuts(entries[k].filter))
  {
  }

  /** The set is closed under cutting at a backslash, so every folder's parent folder is declared. */
  lemma FilterSetClosed(entries: seq<ProjectFile>, f: string, i: int)
    requires f in FilterSet(entries)
    requires 0 <= i < |f| && f[i] == Backslash
    ensures f[..i] in FilterSet(entries)
  {
    var k :| 0 <= k < |entries| && f in Ancestors(entries[k].filter);
    var filter := entries[k].filter;
    if f == filter {
      assert f[..i] in Cuts(filter);
    } else {
      var j :| 0 <= j < |filter| && filter[j] == Backslash && f == filter[..j];
      assert filter[i] == f[i];
      assert f[..i] == filter[..i];
      assert f[..i] in Cuts(filter);
    }
    assert f[..i] in Ancestors(filter);
  }

  /** A file whose filter is already in the set leaves the set as it is. */
  lemma KnownFilterAddsNothing(entries: seq<ProjectFile>, entry: ProjectFile)
    requires entry.filter in FilterSet(entries)
    ensures FilterSet(entries + [entry]) == FilterSet(entries)
  {
    FilterSetAppend(entries, entry);
    forall f | f in Cuts(entry.filter)
      ensures f in FilterSet(entries)
    {
      var i :| 0 <= i < |entry.filter| && entry.filter[i] == Backslash && f == entry.filter[..i];
      FilterSetClosed(entries, entry.filter, i);
    }
  }

  /** When no filter holds a backslash, the set is just the filters themselves. */
  lemma FilterSetWithoutBackslashes(entries: seq<ProjectFile>)
    requires forall k :: 0 <= k < |entries| ==> Backslash !in entries[k].filter
    ensures FilterSet(entries) == set k | 0 <= k < |entries| :: entries[k].filter
  {
    forall f | f in FilterSet(entries)
      ensures f in set k | 0 <= k < |entries| :: entries[k].filter
    {
      var k :| 0 <= k < |entries| && f in Ancestors(entries[k].filter);
      assert Cuts(entries[k].filter) == {};
    }
    forall k | 0 <= k < |entries|
      ensures entries[k].filter in FilterSet(entries)
    {
      assert entries[k].filter in Ancestors(entries[k].filter);
    }
  }
}
