/** Ordering of formatted entries (`_sortFormattedDirectory`). */
module DirectorySorter {
  import opened Strings
  import opened EntryFormatter

  /** The primary sort key: the name, ignoring ASCII case. */
  function SortName(e: Entry): (r: string) {
    LowerCase(e.name)
  }

  /** The secondary sort key: the extension, ignoring ASCII case;
      directories have none. */
  function SortExtension(e: Entry): (r: string) {
    if e.File? then LowerCase(e.extension) else ""
  }

  /** Case-insensitive order by name, then by extension. */
  predicate AlphaLeq(a: Entry, b: Entry) {
    if SortName(a) != SortName(b) then LexLeq(SortName(a), SortName(b))
    else LexLeq(SortExtension(a), SortExtension(b))
  }

  /** The order the sorter uses; with `dirsFirst` every directory comes
      before every file. */
  predicate EntryLeq(a: Entry, b: Entry, dirsFirst: bool) {
    if dirsFirst && a.Directory? != b.Directory? then a.Directory?
    else AlphaLeq(a, b)
  }

  lemma AlphaLeqTotal(a: Entry, b: Entry)
    ensures AlphaLeq(a, b) || AlphaLeq(b, a)
  {
    LexLeqTotal(SortName(a), SortName(b));
    LexLeqTotal(SortExtension(a), SortExtension(b));
  }

  lemma AlphaLeqTransitive(a: Entry, b: Entry, c: Entry)
    requires AlphaLeq(a, b) && AlphaLeq(b, c)
    ensures AlphaLeq(a, c)
  {
    var na, nb, nc := SortName(a), SortName(b), SortName(c);
    if na == nb && nb == nc {
      LexLeqTransitive(SortExtension(a), SortExtension(b), SortExtension(c));
    } else {
      assert LexLeq(na, nb) by { if na == nb { LexLeqReflexive(na); } }
      assert LexLeq(nb, nc) by { if nb == nc { LexLeqReflexive(nb); } }
      LexLeqTransitive(na, nb, nc);
      if na == nc {
        LexLeqAntisymmetric(na, nb);
      }
    }
  }

  lemma EntryLeqTotal(a: Entry, b: Entry, dirsFirst: bool)
    ensures EntryLeq(a, b, dirsFirst) || EntryLeq(b, a, dirsFirst)
  {
    AlphaLeqTotal(a, b);
  }

  lemma EntryLeqTransitive(a: Entry, b: Entry, c: Entry, dirsFirst: bool)
    requires EntryLeq(a, b, dirsFirst) && EntryLeq(b, c, dirsFirst)
    ensures EntryLeq(a, c, dirsFirst)
  {
    if !dirsFirst || (a.Directory? == b.Directory? && b.Directory? == c.Directory?) {
      AlphaLeqTransitive(a, b, c);
    }
  }

  predicate Sorted(s: seq<Entry>, dirsFirst: bool) {
    forall i, j :: 0 <= i < j < |s| ==> EntryLeq(s[i], s[j], dirsFirst)
  }

  /** Inserts `x` before the first element it does not sort after, so that
      it stays ahead of the entries it ties with. */
  function Insert(x: Entry, s: seq<Entry>, dirsFirst: bool): (r: seq<Entry>)
    ensures multiset(r) == multiset(s) + multiset{x}
    ensures |r| == |s| + 1
    ensures forall y :: y in r <==> y == x || y in s
  {
    if s == [] || EntryLeq(x, s[0], dirsFirst) then [x] + s
    else
      assert s == [s[0]] + s[1..];
      [s[0]] + Insert(x, s[1..], dirsFirst)
  }

  /** `h` sorts no later than any element of `t`. */
  predicate LeqAll(h: Entry, t: seq<Entry>, dirsFirst: bool) {
    forall y :: y in t ==> EntryLeq(h, y, dirsFirst)
  }

  lemma SortedCons(h: Entry, t: seq<Entry>, dirsFirst: bool)
    requires Sorted(t, dirsFirst) && LeqAll(h, t, dirsFirst)
    ensures Sorted([h] + t, dirsFirst)
  {
    var r := [h] + t;
    forall i, j | 0 <= i < j < |r|
      ensures EntryLeq(r[i], r[j], dirsFirst)
    {
      if i == 0 {
        assert r[j] == t[j - 1] && t[j - 1] in t;
      } else {
        assert r[i] == t[i - 1] && r[j] == t[j - 1];
      }
    }
  }

  lemma SortedHeadLeqAll(s: seq<Entry>, dirsFirst: bool)
    requires s != [] && Sorted(s, dirsFirst)
    ensures LeqAll(s[0], s[1..], dirsFirst) && Sorted(s[1..], dirsFirst)
  {
    forall y | y in s[1..]
      ensures EntryLeq(s[0], y, dirsFirst)
    {
      var k :| 0 <= k < |s[1..]| && s[1..][k] == y;
      assert s[k + 1] == y;
    }
    forall i, j | 0 <= i < j < |s[1..]|
      ensures EntryLeq(s[1..][i], s[1..][j], dirsFirst)
    {
      assert s[1..][i] == s[i + 1] && s[1..][j] == s[j + 1];
    }
  }

  lemma {:induction false} InsertSorted(x: Entry, s: seq<Entry>, dirsFirst: bool)
    requires Sorted(s, dirsFirst)
    ensures Sorted(Insert(x, s, dirsFirst), dirsFirst)
  {
    if s == [] {
    } else {
      SortedHeadLeqAll(s, dirsFirst);
      if EntryLeq(x, s[0], dirsFirst) {
        forall y | y in s
          ensures EntryLeq(x, y, dirsFirst)
        {
          if y != s[0] {
            assert s == [s[0]] + s[1..];
            EntryLeqTransitive(x, s[0], y, dirsFirst);
          }
        }
        SortedCons(x, s, dirsFirst);
      } else {
        EntryLeqTotal(x, s[0], dirsFirst);
        InsertSorted(x, s[1..], dirsFirst);
        SortedCons(s[0], Insert(x, s[1..], dirsFirst), dirsFirst);
      }
    }
  }

  /** `_sortFormattedDirectory(contents, dirsFirst)`: a stable sort of the
      entries under EntryLeq. */
  function SortFormattedDirectory(contents: seq<Entry>, dirsFirst: bool): (r: seq<Entry>)
    ensures multiset(r) == multiset(contents)
    ensures |r| == |contents|
    ensures Sorted(r, dirsFirst)
  {
    if contents == [] then []
    else
      var rest := SortFormattedDirectory(contents[1..], dirsFirst);
      InsertSorted(contents[0], rest, dirsFirst);
      assert contents == [contents[0]] + contents[1..];
      Insert(contents[0], rest, dirsFirst)
  }

  /** With `dirsFirst`, every directory precedes every file, and within each
      group the alphabetical order holds. */
  lemma DirectoriesFirst(contents: seq<Entry>)
    ensures var r := SortFormattedDirectory(contents, true);
      forall i, j :: 0 <= i < j < |r| ==>
        (r[j].Directory? ==> r[i].Directory?) &&
        (r[i].Directory? == r[j].Directory? ==> AlphaLeq(r[i], r[j]))
  {
  }

  /** Without `dirsFirst`, the result is in alphabetical order throughout. */
  lemma AlphabeticalOrder(contents: seq<Entry>)
    ensures var r := SortFormattedDirectory(contents, false);
      forall i, j :: 0 <= i < j < |r| ==> AlphaLeq(r[i], r[j])
  {
  }

  /** Sorting an already sorted listing changes nothing; in particular the
      sort is idempotent. */
  lemma {:induction false} SortSortedIsIdentity(contents: seq<Entry>, dirsFirst: bool)
    requires Sorted(contents, dirsFirst)
    ensures SortFormattedDirectory(contents, dirsFirst) == contents
  {
    if contents != [] {
      SortSortedIsIdentity(contents[1..], dirsFirst);
      assert contents == [contents[0]] + contents[1..];
    }
  }

  /** `a` and `b` sort equal: neither comes strictly first. */
  predicate Tied(a: Entry, b: Entry, dirsFirst: bool) {
    EntryLeq(a, b, dirsFirst) && EntryLeq(b, a, dirsFirst)
  }

  /** The entries of `s` that tie with `k`, in their order in `s`. */
  function KeepTied(s: seq<Entry>, k: Entry, dirsFirst: bool): (r: seq<Entry>)
    ensures |r| <= |s|
  {
    if s == [] then []
    else (if Tied(s[0], k, dirsFirst) then [s[0]] else []) + KeepTied(s[1..], k, dirsFirst)
  }

  lemma KeepTiedCons(h: Entry, t: seq<Entry>, k: Entry, dirsFirst: bool)
    ensures KeepTied([h] + t, k, dirsFirst)
      == (if Tied(h, k, dirsFirst) then [h] else []) + KeepTied(t, k, dirsFirst)
  {
    assert ([h] + t)[1..] == t;
  }

  /** An entry sorting strictly before `x` cannot tie with anything `x`
      ties with. */
  lemma TiedExcludesSmaller(x: Entry, y: Entry, k: Entry, dirsFirst: bool)
    requires Tied(x, k, dirsFirst) && !EntryLeq(x, y, dirsFirst)
    ensures !Tied(y, k, dirsFirst)
  {
    if Tied(y, k, dirsFirst) {
      EntryLeqTransitive(x, k, y, dirsFirst);
    }
  }

  lemma SwapPastEmpty(h: seq<Entry>, hx: seq<Entry>, b: seq<Entry>)
    requires h == [] || hx == []
    ensures h + (hx + b) == hx + (h + b)
  {
  }

  lemma InsertKeepsTiesPast(x: Entry, s: seq<Entry>, k: Entry, dirsFirst: bool)
    requires s != [] && !EntryLeq(x, s[0], dirsFirst)
    requires KeepTied(Insert(x, s[1..], dirsFirst), k, dirsFirst)
      == (if Tied(x, k, dirsFirst) then [x] else []) + KeepTied(s[1..], k, dirsFirst)
    ensures KeepTied(Insert(x, s, dirsFirst), k, dirsFirst)
      == (if Tied(x, k, dirsFirst) then [x] else []) + KeepTied(s, k, dirsFirst)
  {
    var t := Insert(x, s[1..], dirsFirst);
    var h: seq<Entry> := if Tied(s[0], k, dirsFirst) then [s[0]] else [];
    var hx: seq<Entry> := if Tied(x, k, dirsFirst) then [x] else [];
    assert Insert(x, s, dirsFirst) == [s[0]] + t;
    KeepTiedCons(s[0], t, k, dirsFirst);
    assert KeepTied(s, k, dirsFirst) == h + KeepTied(s[1..], k, dirsFirst);
    if hx != [] {
      TiedExcludesSmaller(x, s[0], k, dirsFirst);
    }
    SwapPastEmpty(h, hx, KeepTied(s[1..], k, dirsFirst));
  }

  /** Insert places the new entry ahead of every entry it ties with, and
      moves no other entry past another. */
  lemma {:induction false} InsertKeepsTies(x: Entry, s: seq<Entry>, k: Entry, dirsFirst: bool)
    ensures KeepTied(Insert(x, s, dirsFirst), k, dirsFirst)
      == (if Tied(x, k, dirsFirst) then [x] else []) + KeepTied(s, k, dirsFirst)
  {
    if s == [] || EntryLeq(x, s[0], dirsFirst) {
      KeepTiedCons(x, s, k, dirsFirst);
    } else {
      InsertKeepsTies(x, s[1..], k, dirsFirst);
      InsertKeepsTiesPast(x, s, k, dirsFirst);
    }
  }

  /** The sort is stable: entries that tie with one another leave it in
      the order they came in. */
  lemma {:induction false} SortStable(contents: seq<Entry>, k: Entry, dirsFirst: bool)
    ensures KeepTied(SortFormattedDirectory(contents, dirsFirst), k, dirsFirst)
      == KeepTied(contents, k, dirsFirst)
  {
    if contents != [] {
      SortStable(contents[1..], k, dirsFirst);
      InsertKeepsTies(contents[0], SortFormattedDirectory(contents[1..], dirsFirst), k, dirsFirst);
    }
  }

  lemma SortIdempotent(contents: seq<Entry>, dirsFirst: bool)
    ensures var once := SortFormattedDirectory(contents, dirsFirst);
      SortFormattedDirectory(once, dirsFirst) == once
  {
    SortSortedIsIdentity(SortFormattedDirectory(contents, dirsFirst), dirsFirst);
  }
}
