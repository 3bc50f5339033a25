/** The view-model's documented behaviour on the concrete listings of its
    unit tests, stated as lemmas about the functions and as client methods
    of ViewModel. */
module FileTreeViewScenarios {
  import opened Wrappers
  import opened Strings
  import opened EntryFormatter
  import opened DirectorySorter
  import opened TreeStore
  import opened FileTreeView

  /** The root listing the tests fetch: README.md, afile.js, subdir/. */
  function ProjectContents(): (r: seq<RawEntry>) {
    [ RawEntry("/path/to/project/README.md", "README.md", true)
    , RawEntry("/path/to/project/afile.js", "afile.js", true)
    , RawEntry("/path/to/project/subdir/", "subdir", false) ]
  }

  const Readme := File("README", ".md")
  const AFile := File("afile", ".js")
  const Subdir := Directory("subdir", "subdir/")

  lemma SplitReadme()
    ensures SplitName("README.md") == ("README", ".md")
  {
    SplitNameUnique("README.md", "README", ".md");
  }

  lemma SplitAFile()
    ensures SplitName("afile.js") == ("afile", ".js")
  {
    SplitNameUnique("afile.js", "afile", ".js");
  }

  lemma FormatProjectContents()
    ensures FormatDirectoryContents("", ProjectContents()) == [Readme, AFile, Subdir]
  {
    var c := ProjectContents();
    assert FormatDirectoryContents("", c)
      == [FormatEntry("", c[0]), FormatEntry("", c[1]), FormatEntry("", c[2])];
    SplitReadme();
    SplitAFile();
    assert c[0] == RawEntry("/path/to/project/README.md", "README.md", true);
    assert FormatEntry("", c[0]) == Readme;
    assert c[1] == RawEntry("/path/to/project/afile.js", "afile.js", true);
    assert FormatEntry("", c[1]) == AFile;
    assert FormatEntry("", c[2]) == Subdir;
  }

  lemma FormatDotfile()
    ensures FormatDirectoryContents("", [RawEntry("/path/to/.dotfile", ".dotfile", true)])
      == [File(".dotfile", "")]
  {
    assert !HasInnerDot(".dotfile") by {
      forall i | 0 < i < |".dotfile"| ensures ".dotfile"[i] != '.' {
        assert ".dotfile"[1..] == "dotfile";
        assert ".dotfile"[i] == "dotfile"[i - 1];
      }
    }
    SplitNameUnique(".dotfile", ".dotfile", "");
  }

  lemma InsertFront(x: Entry, s: seq<Entry>, dirsFirst: bool)
    requires s == [] || EntryLeq(x, s[0], dirsFirst)
    ensures Insert(x, s, dirsFirst) == [x] + s
  {
  }

  lemma InsertPast(x: Entry, s: seq<Entry>, dirsFirst: bool)
    requires s != [] && !EntryLeq(x, s[0], dirsFirst)
    ensures Insert(x, s, dirsFirst) == [s[0]] + Insert(x, s[1..], dirsFirst)
  {
  }

  /** Sorting three entries is inserting the first into the sorted other two. */
  lemma SortThree(a: Entry, b: Entry, c: Entry, dirsFirst: bool)
    ensures SortFormattedDirectory([a, b, c], dirsFirst)
      == Insert(a, Insert(b, [c], dirsFirst), dirsFirst)
  {
    assert [a, b, c][1..] == [b, c];
    assert [b, c][1..] == [c];
    assert [c][1..] == [];
    assert SortFormattedDirectory([c], dirsFirst) == [c];
  }

  const ReadmeTxt := File("README", ".txt")
  const ReadmeBare := File("README", "")

  // Proof scaffolding: unfolds one literal.
  lemma LowerAFile()
    ensures LowerCase("afile") == "afile"
  {
  }

  // Proof scaffolding: unfolds one literal.
  lemma LowerReadme()
    ensures LowerCase("README") == "readme"
  {
  }

  // Proof scaffolding: unfolds one literal.
  lemma LowerSubdir()
    ensures LowerCase("subdir") == "subdir"
  {
  }

  lemma LowerNames()
    ensures SortName(AFile) == "afile"
    ensures SortName(Readme) == "readme"
    ensures SortName(Subdir) == "subdir"
  {
    LowerAFile();
    LowerReadme();
    LowerSubdir();
  }

  // Proof scaffolding: unfolds one literal.
  lemma LowerMd()
    ensures LowerCase(".md") == ".md"
  {
  }

  // Proof scaffolding: unfolds one literal.
  lemma LowerTxt()
    ensures LowerCase(".txt") == ".txt"
  {
  }

  lemma LowerExtensions()
    ensures SortName(ReadmeTxt) == "readme" && SortName(ReadmeBare) == "readme"
    ensures SortExtension(Readme) == ".md"
    ensures SortExtension(ReadmeTxt) == ".txt"
    ensures SortExtension(ReadmeBare) == ""
  {
    LowerReadme();
    LowerMd();
    LowerTxt();
  }

  /** "afile" < "README" < "subdir", ignoring case. */
  lemma NameOrder()
    ensures AlphaLeq(AFile, Subdir) && AlphaLeq(Readme, Subdir) && !AlphaLeq(Readme, AFile)
  {
    LowerNames();
  }

  /** README < README.md < README.txt. */
  lemma ExtensionOrder()
    ensures !AlphaLeq(Readme, ReadmeBare) && !AlphaLeq(ReadmeTxt, ReadmeBare)
    ensures !AlphaLeq(ReadmeTxt, Readme)
  {
    LowerExtensions();
    assert !LexLeq("txt", "md");
  }

  lemma InsertAFileBeforeSubdir()
    ensures Insert(AFile, [Subdir], false) == [AFile, Subdir]
  {
    NameOrder();
    InsertFront(AFile, [Subdir], false);
  }

  lemma InsertReadmeBetween()
    ensures Insert(Readme, [AFile, Subdir], false) == [AFile, Readme, Subdir]
  {
    NameOrder();
    InsertPast(Readme, [AFile, Subdir], false);
    assert [AFile, Subdir][1..] == [Subdir];
    InsertFront(Readme, [Subdir], false);
  }

  lemma SortAlphabetically()
    ensures SortFormattedDirectory([Readme, AFile, Subdir], false) == [AFile, Readme, Subdir]
  {
    SortThree(Readme, AFile, Subdir, false);
    InsertAFileBeforeSubdir();
    InsertReadmeBetween();
  }

  lemma InsertMdAfterBare()
    ensures Insert(Readme, [ReadmeBare], false) == [ReadmeBare, Readme]
  {
    ExtensionOrder();
    InsertPast(Readme, [ReadmeBare], false);
    InsertFront(Readme, [], false);
  }

  lemma InsertTxtLast()
    ensures Insert(ReadmeTxt, [ReadmeBare, Readme], false) == [ReadmeBare, Readme, ReadmeTxt]
  {
    ExtensionOrder();
    InsertPast(ReadmeTxt, [ReadmeBare, Readme], false);
    assert [ReadmeBare, Readme][1..] == [Readme];
    InsertPast(ReadmeTxt, [Readme], false);
    InsertFront(ReadmeTxt, [], false);
  }

  lemma SortByExtension()
    ensures SortFormattedDirectory([ReadmeTxt, Readme, ReadmeBare], false)
      == [ReadmeBare, Readme, ReadmeTxt]
  {
    SortThree(ReadmeTxt, Readme, ReadmeBare, false);
    InsertMdAfterBare();
    InsertTxtLast();
  }

  lemma InsertAFileAfterSubdir()
    ensures Insert(AFile, [Subdir], true) == [Subdir, AFile]
  {
    InsertPast(AFile, [Subdir], true);
    InsertFront(AFile, [], true);
  }

  lemma InsertReadmeLast()
    ensures Insert(Readme, [Subdir, AFile], true) == [Subdir, AFile, Readme]
  {
    NameOrder();
    InsertPast(Readme, [Subdir, AFile], true);
    assert [Subdir, AFile][1..] == [AFile];
    InsertPast(Readme, [AFile], true);
    InsertFront(Readme, [], true);
  }

  lemma SortDirectoriesFirst()
    ensures SortFormattedDirectory([Readme, AFile, Subdir], true) == [Subdir, AFile, Readme]
  {
    SortThree(Readme, AFile, Subdir, true);
    InsertAFileAfterSubdir();
    InsertReadmeLast();
  }

  /** setProjectRoot stores exactly the sorted root listing and fires CHANGE. */
  method SetProjectRootScenario() returns (tree: Tree, changed: bool)
    ensures tree == map[RootKey := Listing([AFile, Readme, Subdir])]
    ensures changed
  {
    var vm := new ViewModel();
    var r := vm.SetProjectRoot("/path/to/project/", Success(ProjectContents()));
    FormatProjectContents();
    SortAlphabetically();
    tree := vm.treeData;
    changed := vm.changeEvents > 0;
  }

  /** Setting the same root twice resets rather than accumulates. */
  method ResetScenario() returns (count: nat)
    ensures count == 3
  {
    var vm := new ViewModel();
    var r := vm.SetProjectRoot("/path/to/project/", Success(ProjectContents()));
    r := vm.SetProjectRoot("/path/to/project/", Success(ProjectContents()));
    count := |vm.treeData[RootKey].children|;
  }

  /** Toggling a file path fails at once and leaves the store alone. */
  method ToggleFileScenario() returns (r: Outcome<ToggleError>, tree: Tree)
    ensures r == Fail(NotADirectory("afile.js"))
    ensures tree == map[]
  {
    var vm := new ViewModel();
    r := vm.ToggleDirectory("afile.js", Failure(FetchError("not fetched")));
    tree := vm.treeData;
  }

  /** Toggling an open directory removes its key and fires CHANGE. */
  method CloseScenario() returns (tree: Tree, changed: bool)
    ensures tree == map[RootKey := Listing([Subdir])]
    ensures changed
  {
    var vm := new ViewModel();
    vm.treeData := map[RootKey := Listing([Subdir]), "subdir/" := Listing([AFile])];
    var r := vm.ToggleDirectory("subdir/", Failure(FetchError("not fetched")));
    tree := vm.treeData;
    changed := vm.changeEvents > 0;
  }

  /** Toggling a closed directory asks `_openPath` for exactly that path. */
  method OpenScenario() returns (requests: seq<string>, tree: Tree)
    ensures requests == ["subdir/"]
    ensures "subdir/" in tree && tree["subdir/"] == Listing([])
  {
    var vm := new ViewModel();
    vm.treeData := map[RootKey := Listing([Subdir])];
    var r := vm.ToggleDirectory("subdir/", Success([]));
    requests := vm.listingRequests;
    tree := vm.treeData;
  }

  /** getOpenNodes with only the root open. */
  method NoOpenNodesScenario() returns (groups: seq<seq<string>>)
    ensures groups == []
  {
    var vm := new ViewModel();
    vm.projectRoot := Some("/foo/bar/");
    vm.treeData := map[RootKey := Listing([File("file", ""), Directory("subdir", "subdir/")])];
    groups := vm.GetOpenNodes();
    OpenNodesOnlyRoot(vm.treeData.Keys, "/foo/bar/", groups);
  }

  lemma SeparatorsOfOne(a: string)
    requires '/' !in a
    ensures Count(a + "/", '/') == 1
  {
    assert multiset(a + "/") == multiset(a) + multiset{'/'};
  }

  lemma SeparatorsOfTwo(a: string, b: string)
    requires '/' !in a && '/' !in b
    ensures Count(a + "/" + b + "/", '/') == 2
  {
    assert multiset(a + "/" + b + "/") == multiset(a + "/") + multiset(b + "/");
    SeparatorsOfOne(a);
    SeparatorsOfOne(b);
  }

  lemma RepeatedEntry(group: seq<string>, x: string)
    requires |group| > 1 && forall i :: 0 <= i < |group| ==> group[i] == x
    ensures !NoDuplicates(group)
  {
    assert group[0] == group[1];
  }

  lemma SingletonGroup(group: seq<string>, x: string)
    requires Elements(group) == {x} && NoDuplicates(group)
    ensures group == [x]
  {
    assert x in Elements(group);
    assert forall i :: 0 <= i < |group| ==> group[i] in Elements(group);
    if |group| > 1 {
      RepeatedEntry(group, x);
    }
  }

  /** The shape of the grouping test, for any directory names `a`, `b`
      and `c`: open `a/`, `a/b/` and `c/` (the root is open too). */
  lemma OpenNodesTwoLevels(root: string, a: string, b: string, c: string, groups: seq<seq<string>>)
    requires '/' !in a && '/' !in b && '/' !in c
    requires IsOpenNodes({RootKey, a + "/", a + "/" + b + "/", c + "/"}, root, groups)
    ensures |groups| == 2
    ensures Elements(groups[0]) == {root + (a + "/"), root + (c + "/")}
    ensures groups[1] == [root + (a + "/" + b + "/")]
  {
    var keys := {RootKey, a + "/", a + "/" + b + "/", c + "/"};
    SeparatorsOfOne(a);
    SeparatorsOfOne(c);
    SeparatorsOfTwo(a, b);
    assert OpenAtLevel(keys, root, 1) == {root + (a + "/" + b + "/")};
    assert |groups| == 2;
    assert OpenAtLevel(keys, root, 0) == {root + (a + "/"), root + (c + "/")};
    SingletonGroup(groups[1], root + (a + "/" + b + "/"));
  }

  // Proof scaffolding: facts about the literal names.
  lemma NoSeparatorInNames()
    ensures '/' !in "subdir1" && '/' !in "subsubdir" && '/' !in "subdir3"
  {
  }

  // Proof scaffolding: facts about the literal names.
  lemma LevelPaths()
    ensures "/foo/bar/" + ("subdir1" + "/") == "/foo/bar/subdir1/"
    ensures "/foo/bar/" + ("subdir3" + "/") == "/foo/bar/subdir3/"
    ensures "/foo/bar/" + ("subdir1" + "/" + "subsubdir" + "/") == "/foo/bar/subdir1/subsubdir/"
  {
  }

  /** The store of the grouping test, with `a`, `b`, `c` for subdir1,
      subsubdir and subdir3. */
  function LevelTree(a: string, b: string, c: string): (r: Tree) {
    map[
      RootKey := Listing([Directory(a, a + "/"), Directory("subdir2", "subdir2/"), Directory(c, c + "/")]),
      a + "/" := Listing([Directory(b, a + "/" + b + "/")]),
      a + "/" + b + "/" := Listing([]),
      c + "/" := Listing([])]
  }

  lemma LevelTreeKeys(a: string, b: string, c: string)
    ensures LevelTree(a, b, c).Keys == {RootKey, a + "/", a + "/" + b + "/", c + "/"}
  {
  }

  /** getOpenNodes groups open directories by depth. */
  method OpenNodesByLevelScenario() returns (groups: seq<seq<string>>)
    ensures |groups| == 2
    ensures Elements(groups[0]) == {"/foo/bar/subdir1/", "/foo/bar/subdir3/"}
    ensures groups[1] == ["/foo/bar/subdir1/subsubdir/"]
  {
    var root, a, b, c := "/foo/bar/", "subdir1", "subsubdir", "subdir3";
    var vm := new ViewModel();
    vm.projectRoot := Some(root);
    vm.treeData := LevelTree(a, b, c);
    groups := vm.GetOpenNodes();
    NoSeparatorInNames();
    LevelTreeKeys(a, b, c);
    OpenNodesTwoLevels(root, a, b, c, groups);
    LevelPaths();
  }

  /** getTreeDataForPath strips the root and looks the rest up. */
  method TreeDataForPathScenario()
    returns (outside: Option<Listing>, unknown: Option<Listing>, top: Option<Listing>,
             second: Option<Listing>, unloaded: Option<Listing>)
    ensures outside == None && unknown == None && unloaded == None
    ensures top == Some(Listing([Directory("subsubdir", "subdir/subsubdir/")]))
    ensures second == None
  {
    var vm := new ViewModel();
    vm.treeData := map[
      RootKey := Listing([Subdir]),
      "subdir/" := Listing([Directory("subsubdir", "subdir/subsubdir/")])];
    vm.projectRoot := Some("/foo/bar/");
    outside := vm.GetTreeDataForPath("yo/");
    unknown := vm.GetTreeDataForPath("/foo/bar/yo/");
    top := vm.GetTreeDataForPath("/foo/bar/subdir/");
    second := vm.GetTreeDataForPath("/foo/bar/subdir/subsubdir/");
    unloaded := vm.GetTreeDataForPath("/foo/bar/subdir/subsubdir/yodeling/submarines/");
  }
}
