/** The tree view-model: the current store, the project root, and the
    operations that replace them and announce each change. */
module FileTreeView {
  import opened Wrappers
  import opened Strings
  import opened EntryFormatter
  import opened TreeStore

  /** The injected listing capability failed. */
  datatype FetchError = FetchError(reason: string)

  /** Why `_toggleDirectory` did not complete. */
  datatype ToggleError =
    | NotADirectory(path: string)   // thrown synchronously
    | ListingFailed(cause: FetchError)

  /** A fetch of a directory's contents, already settled. */
  type Fetched = Result<seq<RawEntry>, FetchError>

  class ViewModel {
    /** The current snapshot of the store. */
    var treeData: Tree
    /** The project root's absolute path, once one is set. */
    var projectRoot: Option<string>
    /** How many CHANGE notifications have been raised. */
    var changeEvents: nat
    /** The relative paths `_openPath` has asked the listing capability for. */
    var listingRequests: seq<string>

    /** The store holds the root listing exactly when a project root is
        set, and every other key names a directory. */
    ghost predicate Valid()
      reads this
    {
      WellFormed(treeData) && (RootKey in treeData <==> projectRoot.Some?)
    }

    constructor ()
      ensures treeData == map[] && projectRoot == None
      ensures changeEvents == 0 && listingRequests == []
      ensures Valid()
    {
      treeData := map[];
      projectRoot := None;
      changeEvents := 0;
      listingRequests := [];
    }

    /** `setProjectRoot(root)`, given the settled fetch of the root's
        contents: on success the store is reset to the root listing alone. */
    method SetProjectRoot(root: string, fetched: Fetched) returns (r: Outcome<FetchError>)
      modifies this
      ensures fetched.Success? ==>
        && r == Pass
        && treeData == map[RootKey := LoadedListing(RootKey, fetched.value)]
        && projectRoot == Some(root)
        && changeEvents == old(changeEvents) + 1
      ensures fetched.Failure? ==>
        && r == Fail(fetched.error)
        && treeData == old(treeData)
        && projectRoot == old(projectRoot)
        && changeEvents == old(changeEvents)
      ensures listingRequests == old(listingRequests)
      ensures fetched.Success? ==> treeData.Keys == {RootKey} && Valid()
      ensures old(Valid()) ==> Valid()
    {
      match fetched {
        case Failure(e) =>
          r := Fail(e);
        case Success(contents) =>
          treeData := map[RootKey := LoadedListing(RootKey, contents)];
          projectRoot := Some(root);
          changeEvents := changeEvents + 1;
          r := Pass;
      }
    }

    /** `_openPath(path)`: requests the listing of `path` and, once it
        arrives, stores it under `path`. */
    method OpenPath(path: string, fetched: Fetched) returns (r: Outcome<ToggleError>)
      modifies this
      ensures listingRequests == old(listingRequests) + [path]
      ensures projectRoot == old(projectRoot)
      ensures fetched.Success? ==>
        && r == Pass
        && treeData == old(treeData)[path := LoadedListing(path, fetched.value)]
        && changeEvents == old(changeEvents) + 1
      ensures fetched.Failure? ==>
        && r == Fail(ListingFailed(fetched.error))
        && treeData == old(treeData)
        && changeEvents == old(changeEvents)
      ensures old(Valid()) && EndsWithSlash(path) ==> Valid()
    {
      listingRequests := listingRequests + [path];
      match fetched {
        case Failure(e) =>
          r := Fail(ListingFailed(e));
        case Success(contents) =>
          treeData := treeData[path := LoadedListing(path, contents)];
          changeEvents := changeEvents + 1;
          r := Pass;
      }
    }

    /** `_toggleDirectory(path)`: refuses a file path, closes an open
        directory by dropping its key alone, and opens a closed one through
        `_openPath` with the same path. `fetched` is what that fetch
        would deliver; it is not consulted otherwise. */
    method ToggleDirectory(path: string, fetched: Fetched) returns (r: Outcome<ToggleError>)
      modifies this
      ensures projectRoot == old(projectRoot)
      ensures !EndsWithSlash(path) ==>
        && r == Fail(NotADirectory(path))
        && treeData == old(treeData)
        && changeEvents == old(changeEvents)
        && listingRequests == old(listingRequests)
      ensures EndsWithSlash(path) && path in old(treeData) ==>
        && r == Pass
        && treeData == old(treeData) - {path}
        && changeEvents == old(changeEvents) + 1
        && listingRequests == old(listingRequests)
      ensures EndsWithSlash(path) && path !in old(treeData) ==>
        && listingRequests == old(listingRequests) + [path]
        && (fetched.Success? ==>
              && r == Pass
              && treeData == old(treeData)[path := LoadedListing(path, fetched.value)]
              && changeEvents == old(changeEvents) + 1)
        && (fetched.Failure? ==>
              && r == Fail(ListingFailed(fetched.error))
              && treeData == old(treeData)
              && changeEvents == old(changeEvents))
      ensures old(Valid()) ==> Valid()
      ensures RootKey in treeData <==> RootKey in old(treeData)
    {
      if !EndsWithSlash(path) {
        r := Fail(NotADirectory(path));
      } else if path in treeData {
        treeData := treeData - {path};
        changeEvents := changeEvents + 1;
        r := Pass;
      } else {
        r := OpenPath(path, fetched);
      }
    }

    /** `getOpenNodes()`: the open directories other than the root, as
        absolute paths grouped by depth. */
    method GetOpenNodes() returns (groups: seq<seq<string>>)
      requires projectRoot.Some?
      ensures IsOpenNodes(treeData.Keys, projectRoot.value, groups)
      ensures Valid() ==> ReportsEveryOpen(treeData, projectRoot.value, groups)
    {
      var root := projectRoot.value;
      var remaining := treeData.Keys;
      ghost var visited: set<string> := {};
      groups := [];
      while remaining != {}
        invariant remaining + visited == treeData.Keys && remaining !! visited
        invariant IsOpenNodes(visited, root, groups)
        decreases |remaining|
      {
        var key :| key in remaining;
        var separators := Count(key, '/');
        if separators == 0 {
          OpenNodesSkipKey(visited, root, groups, key);
        } else {
          var level := separators - 1;
          if level < |groups| {
            var next := groups[level := groups[level] + [root + key]];
            OpenNodesExtendGroup(visited, root, groups, key, next);
            groups := next;
          } else {
            var next := groups + EmptyGroups(level - |groups|) + [[root + key]];
            OpenNodesNewGroup(visited, root, groups, key, next);
            groups := next;
          }
        }
        remaining := remaining - {key};
        visited := visited + {key};
      }
      if Valid() {
        OpenNodesCompleteWellFormed(treeData, root, groups);
      }
    }

    /** `getTreeDataForPath(path)`: the listing stored for an absolute
        path, absent when the path is not under the project root or its
        directory is not loaded. */
    function GetTreeDataForPath(path: string): (r: Option<Listing>)
      reads this
      requires projectRoot.Some?
      ensures forall rel :: projectRoot.value + rel == path ==>
        r == (if rel in treeData then Some(treeData[rel]) else None)
      ensures (forall rel :: projectRoot.value + rel != path) ==> r == None
    {
      match RelativePath(projectRoot.value, path)
      case None => None
      case Some(rel) =>
        assert forall rel' :: projectRoot.value + rel' == path ==> rel' == rel by {
          forall rel' | projectRoot.value + rel' == path ensures rel' == rel {
            JoinInjective(projectRoot.value, rel', rel);
          }
        }
        if rel in treeData then Some(treeData[rel]) else None
    }
  }

  /** `n` empty groups, for the depths no open directory reaches. */
  function EmptyGroups(n: nat): (r: seq<seq<string>>)
    ensures |r| == n && forall i :: 0 <= i < n ==> r[i] == []
  {
    seq(n, _ => [])
  }

  /** One loop step of GetOpenNodes: a key without separators adds nothing. */
  lemma OpenNodesSkipKey(visited: set<string>, root: string, groups: seq<seq<string>>, key: string)
    requires IsOpenNodes(visited, root, groups)
    requires Count(key, '/') == 0
    ensures IsOpenNodes(visited + {key}, root, groups)
  {
    forall i: nat ensures OpenAtLevel(visited + {key}, root, i) == OpenAtLevel(visited, root, i) {
      OpenAtLevelAdd(visited, root, key, i);
    }
  }

  /** One loop step of GetOpenNodes: the key joins a group that exists. */
  lemma OpenNodesExtendGroup(visited: set<string>, root: string, groups: seq<seq<string>>,
                             key: string, next: seq<seq<string>>)
    requires IsOpenNodes(visited, root, groups)
    requires key !in visited && 0 < Count(key, '/') <= |groups|
    requires next == groups[Count(key, '/') - 1 := groups[Count(key, '/') - 1] + [root + key]]
    ensures IsOpenNodes(visited + {key}, root, next)
  {
    var level := Count(key, '/') - 1;
    OpenNodesNotYetListed(visited, root, groups, key, level);
    forall i | 0 <= i < |next|
      ensures Elements(next[i]) == OpenAtLevel(visited + {key}, root, i)
      ensures NoDuplicates(next[i])
    {
      OpenAtLevelAdd(visited, root, key, i);
      if i == level {
        assert Elements(next[i]) == Elements(groups[i]) + {root + key};
      }
    }
    OpenAtLevelAdd(visited, root, key, |next| - 1);
  }

  /** One loop step of GetOpenNodes: the key is deeper than every group so
      far; empty groups fill the levels in between. */
  lemma OpenNodesNewGroup(visited: set<string>, root: string, groups: seq<seq<string>>,
                          key: string, next: seq<seq<string>>)
    requires IsOpenNodes(visited, root, groups)
    requires key !in visited && Count(key, '/') > |groups|
    requires next == groups + EmptyGroups(Count(key, '/') - 1 - |groups|) + [[root + key]]
    ensures IsOpenNodes(visited + {key}, root, next)
  {
    var level := Count(key, '/') - 1;
    forall i | 0 <= i < |next|
      ensures Elements(next[i]) == OpenAtLevel(visited + {key}, root, i)
      ensures NoDuplicates(next[i])
    {
      OpenAtLevelAdd(visited, root, key, i);
      if i < |groups| {
        assert next[i] == groups[i];
      } else if i < level {
        assert next[i] == [];
        assert OpenAtLevel(visited, root, i) == {};
      } else {
        assert next[i] == [root + key];
        assert OpenAtLevel(visited, root, i) == {};
        assert Elements(next[i]) == {root + key};
      }
    }
    OpenAtLevelAdd(visited, root, key, level);
  }

  /** The path about to be added is not yet in its group. */
  lemma OpenNodesNotYetListed(visited: set<string>, root: string, groups: seq<seq<string>>,
                              key: string, level: nat)
    requires IsOpenNodes(visited, root, groups)
    requires key !in visited && level < |groups|
    ensures root + key !in groups[level]
  {
    if root + key in groups[level] {
      assert root + key in OpenAtLevel(visited, root, level);
      var k :| k in visited && Count(k, '/') == level + 1 && root + k == root + key;
      JoinInjective(root, k, key);
    }
  }
}
