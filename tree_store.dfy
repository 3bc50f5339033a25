/** The flat store behind the tree: relative directory path -> listing,
    and the path and depth queries over it. */
module TreeStore {
  import opened Wrappers
  import opened Strings
  import opened EntryFormatter
  import opened DirectorySorter

  /** `{children: [...]}`: the formatted, sorted contents of one directory. */
  datatype Listing = Listing(children: seq<Entry>)

  /** Presence of a key means the directory is open and its listing loaded.
      The project root is "", every other key ends with '/'. */
  type Tree = map<string, Listing>

  const RootKey: string := ""

  /** Every key is the root or a directory path. */
  predicate WellFormed(tree: Tree) {
    forall k :: k in tree ==> k == RootKey || EndsWithSlash(k)
  }

  /** The listing stored for a directory once its contents are fetched:
      formatted under `parent`, then sorted alphabetically. */
  function LoadedListing(parent: string, contents: seq<RawEntry>): (r: Listing)
    ensures |r.children| == |contents|
    ensures multiset(r.children) == multiset(FormatDirectoryContents(parent, contents))
    ensures Sorted(r.children, false)
  {
    Listing(SortFormattedDirectory(FormatDirectoryContents(parent, contents), false))
  }

  predicate IsPrefix(prefix: string, s: string) {
    |prefix| <= |s| && s[..|prefix|] == prefix
  }

  /** Strips the project root's absolute path from an absolute path;
      absent when the path does not lie under the root. */
  function RelativePath(root: string, path: string): (r: Option<string>)
    ensures r.Some? ==> root + r.value == path
    ensures r.None? ==> forall rel :: root + rel != path
  {
    if IsPrefix(root, path) then
      assert root + path[|root|..] == path;
      Some(path[|root|..])
    else
      assert forall rel :: (root + rel)[..|root|] == root;
      None
  }

  /** RelativePath undoes the joining of the root with a relative path. */
  lemma RelativePathOfJoin(root: string, rel: string)
    ensures RelativePath(root, root + rel) == Some(rel)
  {
    assert (root + rel)[..|root|] == root;
    assert (root + rel)[|root|..] == rel;
  }

  lemma JoinInjective(root: string, a: string, b: string)
    requires root + a == root + b
    ensures a == b
  {
    assert a == (root + a)[|root|..];
    assert b == (root + b)[|root|..];
  }

  /** The absolute paths of the open directories `level + 1` separators
      deep, i.e. at group index `level` of `getOpenNodes`. */
  function OpenAtLevel(keys: set<string>, root: string, level: nat): (r: set<string>) {
    set k | k in keys && Count(k, '/') == level + 1 :: root + k
  }

  function Elements(s: seq<string>): (r: set<string>) {
    set x | x in s
  }

  predicate NoDuplicates(s: seq<string>) {
    forall i, j :: 0 <= i < j < |s| ==> s[i] != s[j]
  }

  /** `groups` is a correct answer of `getOpenNodes` for the open keys
      `keys`: group `i` lists, once each and in any order, the root's path
      joined with every key holding `i + 1` separators; there are just
      enough groups to reach the deepest key, and the root key (which has
      no separator) is in none. */
  ghost predicate IsOpenNodes(keys: set<string>, root: string, groups: seq<seq<string>>) {
    && (forall i :: 0 <= i < |groups| ==> Elements(groups[i]) == OpenAtLevel(keys, root, i))
    && (forall i :: 0 <= i < |groups| ==> NoDuplicates(groups[i]))
    && (forall k :: k in keys ==> Count(k, '/') <= |groups|)
    && (|groups| > 0 ==> OpenAtLevel(keys, root, |groups| - 1) != {})
  }

  /** With only the root open, the answer is `[]`. */
  lemma OpenNodesOnlyRoot(keys: set<string>, root: string, groups: seq<seq<string>>)
    requires IsOpenNodes(keys, root, groups)
    requires keys <= {RootKey}
    ensures groups == []
  {
  }

  /** The answer is unique up to the order inside each group. */
  lemma OpenNodesUnique(keys: set<string>, root: string, g1: seq<seq<string>>, g2: seq<seq<string>>)
    requires IsOpenNodes(keys, root, g1) && IsOpenNodes(keys, root, g2)
    ensures |g1| == |g2|
    ensures forall i :: 0 <= i < |g1| ==> Elements(g1[i]) == Elements(g2[i])
  {
  }

  /** Every open directory other than the root is reported, in the group
      of its depth. */
  lemma OpenNodesComplete(keys: set<string>, root: string, groups: seq<seq<string>>, k: string)
    requires IsOpenNodes(keys, root, groups)
    requires k in keys && k != RootKey && Count(k, '/') > 0
    ensures root + k in groups[Count(k, '/') - 1]
  {
    assert root + k in OpenAtLevel(keys, root, Count(k, '/') - 1);
  }

  /** Every key other than the root has a group for its depth, and its
      absolute path is in that group. */
  predicate ReportsEveryOpen(tree: Tree, root: string, groups: seq<seq<string>>) {
    forall k :: k in tree && k != RootKey ==>
      0 < Count(k, '/') <= |groups| && root + k in groups[Count(k, '/') - 1]
  }

  /** In a well-formed store every open directory other than the root is
      reported, in the group of its depth. */
  lemma OpenNodesCompleteWellFormed(tree: Tree, root: string, groups: seq<seq<string>>)
    requires WellFormed(tree) && IsOpenNodes(tree.Keys, root, groups)
    ensures ReportsEveryOpen(tree, root, groups)
  {
    forall k | k in tree && k != RootKey
      ensures 0 < Count(k, '/') <= |groups| && root + k in groups[Count(k, '/') - 1]
    {
      assert k[|k| - 1] in k;
      OpenNodesComplete(tree.Keys, root, groups, k);
    }
  }

  /** The root's own path is never reported. */
  lemma OpenNodesExcludeRoot(keys: set<string>, root: string, groups: seq<seq<string>>)
    requires IsOpenNodes(keys, root, groups)
    ensures forall i :: 0 <= i < |groups| ==> root !in groups[i]
  {
    forall i | 0 <= i < |groups|
      ensures root !in groups[i]
    {
      forall k' | k' in keys && Count(k', '/') == i + 1
        ensures root + k' != root
      {
        assert |root + k'| == |root| + |k'| > |root|;
      }
      assert root !in OpenAtLevel(keys, root, i);
      assert root !in Elements(groups[i]);
    }
  }

  /** Adding one more key to a correct answer: the step of the loop in
      `getOpenNodes`. */
  lemma OpenAtLevelAdd(keys: set<string>, root: string, k: string, level: nat)
    ensures OpenAtLevel(keys + {k}, root, level) ==
      OpenAtLevel(keys, root, level) + (if Count(k, '/') == level + 1 then {root + k} else {})
  {
  }
}
