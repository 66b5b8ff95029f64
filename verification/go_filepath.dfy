/**
 The functions of Go's `path/filepath` package that the model needs:
 `Ext`, `Dir`, and the path `Walk` reports for an entry below its root, for a
 host whose path separator is '/'.
 */
module GoFilepath {
  import opened GoStrings

  const Separator := '/'

  /** No dot and no separator occurs after position `k` of `path`. */
  predicate DotFreeAfter(path: string, k: int)
    requires -1 <= k < |path|
  {
    forall m :: k < m < |path| ==> path[m] != '.' && path[m] != Separator
  }

  /**
   The scan of filepath.Ext, from position `i` down to the start of the final
   path element: the suffix from the first dot met, or "" when a separator or
   the start of the string comes first.
   */
  function ExtScan(path: string, i: int): (ext: string)
    requires -1 <= i < |path|
    requires DotFreeAfter(path, i)
    ensures ext == "" <==> forall k :: 0 <= k <= i && path[k] == '.' ==> !DotFreeAfter(path, k)
    ensures ext != "" ==>
      && |ext| <= |path|
      && ext == path[|path| - |ext|..]
      && ext[0] == '.'
      && DotFreeAfter(path, |path| - |ext|)
    decreases i + 1
  {
    if i < 0 || path[i] == Separator then ""
    else if path[i] == '.' then path[i..]
    else ExtScan(path, i - 1)
  }

  /**
   filepath.Ext: the suffix of `path` that starts at the last dot of its final
   element, or "" when the final element has no dot.
   */
  function Ext(path: string): (ext: string)
    ensures ext == "" <==> forall k :: 0 <= k < |path| && path[k] == '.' ==> !DotFreeAfter(path, k)
    ensures ext != "" ==>
      && |ext| <= |path|
      && ext == path[|path| - |ext|..]
      && ext[0] == '.'
      && DotFreeAfter(path, |path| - |ext|)
  {
    ExtScan(path, |path| - 1)
  }

  /**
   filepath.Dir for a path whose directory part is already clean (no doubled
   separator, no "." or ".." element): everything before the last separator,
   "/" when that separator is the first character, and "." when there is none.
   The result is a non-empty prefix of `path` followed by the last separator
   (or the root "/" itself).
   */
  function Dir(path: string): (dir: string)
    ensures Separator !in path ==> dir == "."
    ensures Separator in path ==>
      && 0 < |dir| <= |path|
      && path[..|dir|] == dir
      && (dir == [Separator] || (|dir| < |path| && path[|dir|] == Separator))
      && forall m :: |dir| < m < |path| ==> path[m] != Separator
  {
    var i := LastIndex(path, Separator);
    if i == -1 then "."
    else if i == 0 then [Separator]
    else path[..i]
  }

  /**
   The path filepath.Walk reports for the entry at the clean relative path
   `rel` below a clean root: filepath.Join(root, rel). Join drops the root "."
   and does not double the separator after the root "/".
   */
  function WalkPath(root: string, rel: string): string {
    if root == "." then rel
    else if root == [Separator] then root + rel
    else root + [Separator] + rel
  }

  /** The directory of `d + "/" + b`, for a base name `b`, is `d` again. */
  lemma DirOfJoin(d: string, b: string)
    requires d != ""
    requires Separator !in b
    ensures Dir(d + [Separator] + b) == d
  {
    var path := d + [Separator] + b;
    assert path[|d|] == Separator;
    assert path[|d| + 1..] == b;
    assert LastIndex(path, Separator) == |d|;
  }
}
