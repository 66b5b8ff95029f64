# genproj: path-to-project model

`genproj` writes a Visual Studio project file (`.vcxproj`) and its filters file
(`.vcxproj.filters`) for a tree of C++ sources. This project models the part of
`cmd/genproj/main.go` that turns the walked paths into the `Project` value the
two templates are rendered from. That part has four pieces:

- **findFiles** keeps a walked path when its extension is `.cpp` or `.h`.
- **the per-file builder** cuts the absolute root plus one separator off each
  kept path and takes the directory of what is left. With a map root (`-mapRoot`),
  the name becomes `mapRoot + "/" + relative` with every `/` turned into `\`, and
  the directory gets the same rewrite. The result is a `ProjectFile{Name, Filter}`.
- **the ancestor walk** inserts each filter into `Filters`, then each prefix of
  it that ends just before a `\`.
- **the property sheets**: the `-p` list is split at its commas.

Modules:

- `GoStrings` (`go_strings.dfy`) models `strings.LastIndex`, `strings.Index`,
  `strings.Replace`, `strings.Split` and its inverse `strings.Join`, for the
  one-character needles the generator uses.
- `GoFilepath` (`go_filepath.dfy`) models `filepath.Ext` and a simplified
  `filepath.Dir`, for a host whose separator is `/`.
- `Genproj` (`genproj.dfy`) holds the `ProjectFile` and `Project` types,
  `findFiles`, the per-file entry, the ancestor loop and the main loop.
- `GenprojProperties` (`genproj_properties.dfy`) proves what the entries and
  the filter set mean.

## Behaviour worth knowing

- The only file selection is the fixed extension test: a path is kept when
  its extension is `.cpp` or `.h`.
- Without a map root, an entry's name is the walked path itself, unchanged.
- The filter is built from the relative directory alone; the map root is not
  prepended to it. For root `/proj`, map root `X` and file `/proj/src/lib/b.h`,
  the name is `X\src\lib\b.h` and the filter is `src\lib`
  (`EntryInSubdirectory`). A directory that happens to be named like the map
  root still gives that name as a filter.
- The ancestor walk cuts only at `\`. Without a map root, on a `/` host, a
  filter like `src/lib` gets no ancestors (`UnmappedFilterHasNoAncestors`).
- A file directly under the root is filed under `"."`.
- The walk starts at the `-root` value as given (main.go:48), but the cut
  uses the length of its absolute form (main.go:46, 56). The walk reports each
  entry below the root as `filepath.Join(root, name)`, which cleans its result,
  so walked paths start with `rootAbs + "/"` exactly when `-root` is absolute
  and does not clean to `/`. With the default `-root .` (main.go:39) the walk
  reports relative paths such as `src/a.cpp`; each is either too short to cut, so the run fails, or cut to
  something that is not its path below the root (`DefaultRootMiscutsNames`,
  and see "## Findings").
- Nothing checks that a path starts with the root; the code only slices at
  `len(rootAbs)+1`. That slice fails when a path is not longer than the root,
  and the run then stops before writing anything. The model returns
  `Failure(SliceOutOfRange(index, path))` for the first such path
  (`BuildProject`). A longer path that does not start with the root is cut
  all the same.
- The lemmas about what names and filters mean (`EntryUnderRoot`,
  `EntryInSubdirectory`) take each path as `rootAbs + "/" + relative`. That is
  what the walk reports when it starts at the absolute root
  (`AbsoluteRootCutsNames`); the program as written guarantees it only when
  `-root` is absolute and does not clean to `/`. `WalkPath` itself takes the
  root and the relative path already clean.

## Model

| member | source | states |
|---|---|---|
| GoStrings.LastIndex | cmd/genproj/main.go:71 | the position of the last occurrence of the character, with none after it, or -1 exactly when the character does not occur |
| GoStrings.ReplaceAll | cmd/genproj/main.go:61-62 | the result has the input's length, every `from` becomes `to`, every other character is kept in place, and no `from` is left |
| GoStrings.ReplaceAllAppend | cmd/genproj/main.go:60-61 | rewriting separators in a concatenation is rewriting each part |
| GoStrings.Split | cmd/genproj/main.go:79 | one piece more than there are commas, no piece contains a comma, joining the pieces with commas gives back the input, and the empty list gives `[""]` |
| GoStrings.SplitJoin | cmd/genproj/main.go:79 | splitting a comma-joined non-empty list of comma-free pieces gives back exactly those pieces |
| GoFilepath.ExtScan | cmd/genproj/main.go:17 | scanning back from a position inside the final element finds the suffix from the last dot, or "" when a separator or the start comes first |
| GoFilepath.Ext | cmd/genproj/main.go:17 | the extension is the suffix starting at the last dot of the final path element, and it is "" exactly when that element has no dot |
| GoFilepath.Dir | cmd/genproj/main.go:57 | "." when the path has no separator; otherwise a non-empty prefix that is followed by the last separator (or is the root "/") |
| GoFilepath.DirOfJoin | cmd/genproj/main.go:57 | the directory of `d + "/" + b`, for a separator-free base name `b`, is `d` |
| Genproj.FindFiles | cmd/genproj/main.go:14-24 | a path is kept exactly when it was walked and has extension `.cpp` or `.h`; at most as many paths as were walked |
| Genproj.FindFilesAppend | cmd/genproj/main.go:16-22 | filtering is done path by path in walk order: filtering two consecutive stretches of the walk and concatenating gives the filtered whole |
| Genproj.SourceFileBySuffix | cmd/genproj/main.go:17-18 | `IsSourceFile`, the extension test of findFiles, holds of a path exactly when it ends in `.cpp` or in `.h` |
| Genproj.ExtOfSuffix | cmd/genproj/main.go:17 | a path ending in a dot followed by dot-free and separator-free text has exactly that ending as its extension |
| Genproj.RelativeName | cmd/genproj/main.go:56 | the relative name is what is left of the path after its first `len(rootAbs)+1` characters, and when the path starts with the root and a `/` it is exactly the part below the root |
| Genproj.DefaultRootMiscutsNames | cmd/genproj/main.go:39-56 | with the default root `.`, a walked path is either not longer than the absolute root (the cut fails) or cut to something other than its path below the root |
| Genproj.AbsoluteRootCutsNames | cmd/genproj/main.go:46-57 | when the walk starts at an absolute root other than `/`, each entry is reported as root, `/` and its relative path, the cut gives back that relative path, and the unmapped filter is its directory |
| Genproj.MakeEntry | cmd/genproj/main.go:56-68 | without a map root the name is the walked path and the filter the directory of the relative name; with one, neither name nor filter contains `/`, the name is one separator longer than map root plus relative name, and the filter is as long as the relative directory |
| Genproj.AddAncestors | cmd/genproj/main.go:69-76 | the loop adds exactly the filter and every prefix of it cut just before a `\`, and nothing else |
| Genproj.FilterSetAppend | cmd/genproj/main.go:69-76 | one more file adds exactly its filter and that filter's ancestors to the set |
| Genproj.AppendEntry | cmd/genproj/main.go:64-76 | after one turn the files list has the new entry at its end and the filters are those of the extended list |
| Genproj.BuildProject | cmd/genproj/main.go:55-79 | fails exactly when some kept path is not longer than the root, naming the first one; otherwise entry k is built from path k alone, there are as many entries as paths, the filters are the entries' filters with all ancestors, and the property sheets are the comma split |
| Genproj.GenerateProject | cmd/genproj/main.go:48-79 | the entries follow the kept paths of the walk one to one, the filters are the entries' filters with all ancestors, the property sheets are the comma split, and the run fails exactly when some walked `.cpp`/`.h` path is not longer than the root |
| GenprojProperties.EntryUnderRoot | cmd/genproj/main.go:56-67 | for `rootAbs + "/" + rel`: without a map root the name is the path unchanged; with one it is the rewritten map root, `\`, and the rewritten `rel`; a root-level file has filter "." |
| GenprojProperties.EntryInSubdirectory | cmd/genproj/main.go:57-62 | for a file `b` in relative directory `d`, the filter is `d` (rewritten with `\` under a map root) and is built from `d` alone, without the map root prepended; under a map root the name is map root, filter and `b` joined by `\` |
| GenprojProperties.UnmappedFilterHasNoAncestors | cmd/genproj/main.go:57-76 | without a map root, a path without `\` gets a filter without `\`, whose only ancestor is itself |
| GenprojProperties.FilterSetComplete | cmd/genproj/main.go:69-76 | every file's filter, and every cut of it before a `\`, is in the filter set |
| GenprojProperties.FilterSetSound | cmd/genproj/main.go:69-76 | every member of the filter set is some file's filter or a cut of one before a `\` |
| GenprojProperties.FilterSetClosed | cmd/genproj/main.go:69-76 | the filter set is closed under cutting before a `\`, so every folder's parent folder is declared |
| GenprojProperties.KnownFilterAddsNothing | cmd/genproj/main.go:51-70 | a file whose filter is already in the set leaves the set unchanged, so duplicate filters collapse |
| GenprojProperties.FilterSetWithoutBackslashes | cmd/genproj/main.go:69-76 | when no filter holds a `\`, the filter set is exactly the set of filters |

## Left out

- The directory walk (`filepath.Walk`, cmd/genproj/main.go:16) is file-system I/O.
  It is an input: the sequence of visited paths, root and directories included,
  in walk order. Walk errors are not modelled. The callback ignores them, and a
  directory whose name ends in `.h` or `.cpp` is kept like a file.
- `filepath.Abs` (cmd/genproj/main.go:46) asks the OS for the working directory.
  `rootAbs` is an input string, and `walked` is an input independent of it:
  the model does not tie the walked paths to `-root`. `WalkPath` states the
  form of one walked path (`filepath.Join` for a clean root and relative path)
  for the lemmas that relate the two.
- GoFilepath.Dir: does not model `filepath.Clean`. It agrees with `filepath.Dir`
  when the part before the last separator is already clean. That means no doubled
  separator, no `.` or `..` element and no trailing separator, which holds for
  paths produced by the walk. The host separator is fixed to `/`. Volume names
  and the Windows `\` separator are not modelled.
- Go strings are byte strings. Here a `char` stands for one byte, so a non-ASCII
  path is modelled byte by byte.
- `Project.Files` holds `*ProjectFile` references in Go. Here it holds values, because nothing
  mutates an entry after it is appended. `Project.Filters` is a `map[string]bool`
  whose values are all `true`, so it is modelled as a set.
- Flag parsing (cmd/genproj/main.go:39-44) is an external library. The flag
  values are parameters.
- Template parsing and rendering (cmd/genproj/main.go:82-92) is an external
  library, and the template bodies (cmd/genproj/main.go:95-239) are static text.
- `ioutil.WriteFile` and `fmt.Println` (cmd/genproj/main.go:80, 85, 90, 92) are
  output I/O.

## Findings

| source | as written | input that shows it | evidently intended | confidence | as-written member | corrected member |
|---|---|---|---|---|---|---|
| cmd/genproj/main.go:46-56 | the walk starts at `*root` as given, while the cut drops `len(rootAbs)+1` characters, `rootAbs` being the absolute form of `*root` | default `-root .` with working directory `/home/u/p`: the walk reports `src/a.cpp` (9 characters, not longer than `/home/u/p`), so the cut at 10 fails; a longer path such as `src/lib/util/a.cpp` is cut to `il/a.cpp` | walk the absolute root (`findFiles(rootAbs)`), so for an absolute root other than `/` every walked path is `rootAbs + "/" + relative` and the cut yields the relative path | high (not executed) | Genproj.DefaultRootMiscutsNames | Genproj.AbsoluteRootCutsNames |
