# FileTreeView view-model

A Dafny model of the view-model half of Brackets' project file tree
(`project/FileTreeView`): the rules that turn a raw directory listing into
display entries, the order those entries are shown in, the flat store of
open directories (relative path -> listing), and the `ViewModel` object
that resets the store for a project root, opens and closes directories and
announces each change. The behaviour is the one the unit tests in
`test/spec/FileTreeView-test.js` assert. The implementation file
`project/FileTreeView.js` is not part of this model.

Modules, one per concern:

- `Wrappers`: `Option`, `Result`, `Outcome`.
- `Strings`: ASCII lower-casing, lexicographic order with its order laws,
  separator count, last index of a character.
- `EntryFormatter`: `_formatDirectoryContents`. It splits a file name at
  its last dot unless that dot is the first character (dotfiles keep
  their whole name), and gives a directory its path `parent + name + "/"`.
- `DirectorySorter`: `_sortFormattedDirectory`. A stable insertion sort
  orders case-insensitively by name, then by extension. With `dirsFirst`,
  directories come before files. It is proved to be a permutation, sorted
  and idempotent.
- `TreeStore`: the store type, loaded listings, the root-stripping of
  absolute paths, and the specification `IsOpenNodes` of `getOpenNodes`
  with its lemmas.
- `FileTreeView`: the `ViewModel` class with the fields `treeData`,
  `projectRoot`, `changeEvents` (the CHANGE notifications) and
  `listingRequests` (the paths `_openPath` asked for). Its methods are
  `SetProjectRoot`, `OpenPath`, `ToggleDirectory` and `GetOpenNodes`, plus
  the function `GetTreeDataForPath`. They keep the invariant `Valid`:
  the root key `""` is present exactly when a project root is set, and
  every other key ends with '/'. `SetProjectRoot` and `ToggleDirectory`
  preserve it on every path. `OpenPath` preserves it for directory paths,
  the only ones `ToggleDirectory` passes on.
- `FileTreeViewScenarios`: every test case of the view-model, written as
  a lemma or a client method of `ViewModel` whose postcondition is the
  expected outcome.

The listing capability is asynchronous in the source. Here it is a
parameter holding the already settled outcome of the fetch: the entries,
or a `FetchError`.

## Model

| member | source | states |
|---|---|---|
| `EntryFormatter.SplitName` | test/spec/FileTreeView-test.js:56-89 | name + extension is the file name; the extension is empty or one dot with no further dot; a nonempty extension has a nonempty name before it; the extension is empty exactly when no dot follows the first character (dotfiles stay whole) |
| `EntryFormatter.SplitNameUnique` | test/spec/FileTreeView-test.js:56-89 | those four properties determine the split: any name/extension pair meeting them is the result |
| `EntryFormatter.FormatEntry` | test/spec/FileTreeView-test.js:56-89 | a file becomes a File whose name and extension are the split of its name; a directory becomes a Directory with the same name and path parent + name + "/" |
| `EntryFormatter.FormatDirectoryContents` | test/spec/FileTreeView-test.js:56-89 | one display entry per raw entry, same length, same order, element i is entry i formatted |
| `EntryFormatter.FormattedDirectoriesUnderParent` | test/spec/FileTreeView-test.js:68-71 | every directory entry of a formatted listing starts with the parent path, is longer than it and ends with '/' |
| `Strings.LowerCase` | test/spec/FileTreeView-test.js:93-122 | same length, each character ASCII-lower-cased, so no upper-case letter remains |
| `Strings.LexLeqPrefix` | test/spec/FileTreeView-test.js:124-153 | a string sorts before any extension of it (README'' before README.md) |
| `Strings.LexLeqTotal` | test/spec/FileTreeView-test.js:93-184 | the lexicographic order is total |
| `Strings.LexLeqAntisymmetric` | test/spec/FileTreeView-test.js:93-184 | two strings ordered both ways are equal |
| `Strings.LexLeqTransitive` | test/spec/FileTreeView-test.js:93-184 | the lexicographic order is transitive |
| `DirectorySorter.AlphaLeqTotal` | test/spec/FileTreeView-test.js:93-153 | the name-then-extension order relates every pair of entries |
| `DirectorySorter.AlphaLeqTransitive` | test/spec/FileTreeView-test.js:93-153 | the name-then-extension order is transitive |
| `DirectorySorter.EntryLeqTotal` | test/spec/FileTreeView-test.js:93-184 | the sorter's order, with or without dirsFirst, is total |
| `DirectorySorter.EntryLeqTransitive` | test/spec/FileTreeView-test.js:93-184 | the sorter's order, with or without dirsFirst, is transitive |
| `DirectorySorter.Insert` | test/spec/FileTreeView-test.js:92-184 | inserting adds exactly the new entry: multiset grows by it, length by one |
| `DirectorySorter.InsertSorted` | test/spec/FileTreeView-test.js:92-184 | inserting into a sorted listing keeps it sorted |
| `DirectorySorter.SortFormattedDirectory` | test/spec/FileTreeView-test.js:92-184 | the result is a permutation of the input (same multiset) and sorted under the order chosen by dirsFirst |
| `DirectorySorter.InsertKeepsTies` | test/spec/FileTreeView-test.js:92-184 | among the entries tied with any given entry, Insert puts the new one first and keeps the others in order |
| `DirectorySorter.SortStable` | test/spec/FileTreeView-test.js:92-184 | the sort is stable: for every entry k, the entries tied with k (case variants, a file and a directory of the same name) come out in their input order |
| `DirectorySorter.AlphabeticalOrder` | test/spec/FileTreeView-test.js:93-153 | without dirsFirst every pair of the result is in name-then-extension order |
| `DirectorySorter.DirectoriesFirst` | test/spec/FileTreeView-test.js:155-184 | with dirsFirst no file precedes a directory, and entries of the same kind are in name-then-extension order |
| `DirectorySorter.SortSortedIsIdentity` | test/spec/FileTreeView-test.js:92-184 | a listing that is already sorted comes back unchanged |
| `DirectorySorter.SortIdempotent` | test/spec/FileTreeView-test.js:92-184 | sorting twice is sorting once |
| `TreeStore.LoadedListing` | test/spec/FileTreeView-test.js:197-228 | a loaded listing holds exactly the formatted entries (same multiset and length), sorted with directories not first |
| `TreeStore.RelativePath` | test/spec/FileTreeView-test.js:405-420 | a found relative path joined to the root gives back the path; absence means no relative path joins to it |
| `TreeStore.RelativePathOfJoin` | test/spec/FileTreeView-test.js:410-416 | stripping the root from root + rel yields rel |
| `TreeStore.JoinInjective` | test/spec/FileTreeView-test.js:405-420 | two relative paths that join to the same absolute path are equal |
| `TreeStore.OpenNodesOnlyRoot` | test/spec/FileTreeView-test.js:314-329 | with no key besides the root open, the answer is the empty list |
| `TreeStore.OpenNodesUnique` | test/spec/FileTreeView-test.js:364-367 | any two correct answers have the same groups up to order inside a group |
| `TreeStore.OpenNodesComplete` | test/spec/FileTreeView-test.js:331-376 | every open non-root directory with n separators appears, as root + key, in group n - 1 |
| `TreeStore.OpenNodesCompleteWellFormed` | test/spec/FileTreeView-test.js:331-376 | in a store whose non-root keys all end with '/', every such key has a group for its depth and its absolute path is in it |
| `TreeStore.OpenNodesExcludeRoot` | test/spec/FileTreeView-test.js:331-376 | the root's own path is in no group |
| `FileTreeView.ViewModel.constructor` | test/spec/FileTreeView-test.js:198 | a new view-model has an empty store, no root, no notification and satisfies Valid |
| `FileTreeView.ViewModel.SetProjectRoot` | test/spec/FileTreeView-test.js:197-237 | on success the store is exactly the root key with the loaded root listing, the root is set and one CHANGE fires; on a failed fetch the error is returned and nothing changes; Valid holds after success and is preserved |
| `FileTreeView.ViewModel.OpenPath` | test/spec/FileTreeView-test.js:284-300 | requests exactly the given path; on success binds it to its loaded listing and fires CHANGE, on failure returns the error and leaves store and count alone; preserves Valid for a directory path |
| `FileTreeView.ViewModel.ToggleDirectory` | test/spec/FileTreeView-test.js:240-300 | a path without a trailing '/' fails with NotADirectory and changes nothing; an open path loses exactly its own key (descendants stay) and CHANGE fires; a closed path is opened through OpenPath with the same path; Valid is preserved and the root key is never added or removed |
| `FileTreeView.ViewModel.GetOpenNodes` | test/spec/FileTreeView-test.js:314-376 | the result satisfies IsOpenNodes for the store's keys: group i holds, once each, root + every key with i + 1 separators, and there are just enough groups for the deepest key; in a Valid view-model every open directory other than the root is in the group of its depth |
| `FileTreeView.ViewModel.GetTreeDataForPath` | test/spec/FileTreeView-test.js:405-420 | for a path root + rel the result is the listing stored under rel, or absent when rel is not loaded; for a path not under the root it is absent |
| `FileTreeViewScenarios.FormatProjectContents` | test/spec/FileTreeView-test.js:57-73 | README.md, afile.js, subdir format to README/.md, afile/.js and subdir with path subdir/ |
| `FileTreeViewScenarios.FormatDotfile` | test/spec/FileTreeView-test.js:75-89 | .dotfile formats to name .dotfile with extension "" |
| `FileTreeViewScenarios.SortAlphabetically` | test/spec/FileTreeView-test.js:93-122 | README.md, afile.js, subdir/ sort to afile.js, README.md, subdir/ |
| `FileTreeViewScenarios.SortByExtension` | test/spec/FileTreeView-test.js:124-153 | README.txt, README.md, README sort to README, README.md, README.txt |
| `FileTreeViewScenarios.SortDirectoriesFirst` | test/spec/FileTreeView-test.js:155-184 | with dirsFirst the same three sort to subdir/, afile.js, README.md |
| `FileTreeViewScenarios.SetProjectRootScenario` | test/spec/FileTreeView-test.js:197-228 | after setProjectRoot the store is exactly {"": [afile.js, README.md, subdir/]} and CHANGE fired |
| `FileTreeViewScenarios.ResetScenario` | test/spec/FileTreeView-test.js:230-237 | setting the same root twice leaves exactly 3 children under "" |
| `FileTreeViewScenarios.ToggleFileScenario` | test/spec/FileTreeView-test.js:241-249 | toggling afile.js fails with NotADirectory and the store stays empty |
| `FileTreeViewScenarios.CloseScenario` | test/spec/FileTreeView-test.js:251-282 | toggling the open subdir/ leaves only the root key and CHANGE fired |
| `FileTreeViewScenarios.OpenScenario` | test/spec/FileTreeView-test.js:284-300 | toggling the closed subdir/ asks the listing for exactly subdir/ and stores the result under it |
| `FileTreeViewScenarios.NoOpenNodesScenario` | test/spec/FileTreeView-test.js:314-329 | with only the root open getOpenNodes answers [] |
| `FileTreeViewScenarios.OpenNodesTwoLevels` | test/spec/FileTreeView-test.js:331-376 | for any separator-free names a, b, c with a/, a/b/, c/ open, the answer has two groups: {root+a/, root+c/} and [root+a/b/] |
| `FileTreeViewScenarios.OpenNodesByLevelScenario` | test/spec/FileTreeView-test.js:331-376 | the test's store gives groups {/foo/bar/subdir1/, /foo/bar/subdir3/} and [/foo/bar/subdir1/subsubdir/] |
| `FileTreeViewScenarios.TreeDataForPathScenario` | test/spec/FileTreeView-test.js:405-420 | yo/, /foo/bar/yo/, the unloaded subsubdir and its unloaded descendant are absent; /foo/bar/subdir/ gives the subdir/ listing |

## Left out

- Rendering: `_fileNode`, `_directoryNode`, `_directoryContents`,
  `_fileTreeView` and `render` (test/spec/FileTreeView-test.js:424-538)
  produce markup and have no state or order rules of their own.
- Asynchrony: `setTimeout`, the `getContents` callback, `$.Deferred` and
  `waitsForDone` are replaced by a synchronous call that takes the settled
  fetch. Overlapping fetches, and a fetch that never settles, are not
  modelled.
- The event mixin (`vm.on`): CHANGE is the counter `changeEvents`, and
  listeners are not modelled.
- The spy on `_openPath` (test/spec/FileTreeView-test.js:297): the model
  runs the real `OpenPath` and records the requested path in
  `listingRequests`. The test's assertion is about that record.
- Immutable.js: the store is a Dafny `map` with value semantics. The
  identity comparison `toBe` at lines 411 and 415 becomes equality, and
  structural sharing is not modelled.
- Locale-aware collation: case is folded for ASCII letters only.
- Sort key: the model orders by lower-cased name, then by lower-cased
  extension, with "" as the extension of a directory. An alternative key
  would be the case-sensitive concatenation name + extension, with the
  directory path for directories. The tests rule out a case-sensitive
  order, since "afile" sorts before "README". Among case-insensitive
  orders, only inputs the tests lack tell the pair order and the
  concatenation apart, for example `a-b` against `a.js`.
- Toggle target: the model treats a path as a file path exactly when it
  does not end with '/'. Nothing else is available to tell a file from a
  directory.
- Project root: the root is one absolute-path string. The tests set it as
  an object with `fullPath` at lines 309-311 but as a bare string at
  line 402. `GetOpenNodes` and `GetTreeDataForPath` require a root to be
  set, because the source dereferences it.
- `FileTreeView.ViewModel.GetOpenNodes`: the order inside a group is left
  unspecified, as the test notes at line 365. Depths with no open
  directory get an empty group where a JavaScript array would have a hole.
  Keys without any '/' contribute nothing; in a valid store only the root
  key has none.
- No-orphan invariant: a key whose parent listing no longer mentions it is
  allowed. Closing a directory keeps open descendant keys, as the source
  does.
