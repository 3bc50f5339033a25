/** Conversion of raw directory listings into display entries
    (`_formatDirectoryContents`). */
module EntryFormatter {
  import opened Strings

  /** What the project layer hands over for one child of a directory. */
  datatype RawEntry = RawEntry(fullPath: string, name: string, isFile: bool)

  /** A display record: a file carries its split name, a directory its
      path relative to the project root, ending with '/'. */
  datatype Entry =
    | File(name: string, extension: string)
    | Directory(name: string, directory: string)

  /** The extension is empty, or one dot followed by no further dot. */
  predicate IsExtension(e: string) {
    e == [] || (e[0] == '.' && '.' !in e[1..])
  }

  /** Does the name hold a dot anywhere after its first character? */
  predicate HasInnerDot(fileName: string) {
    exists i :: 0 < i < |fileName| && fileName[i] == '.'
  }

  /** Splits a file name at its last dot, unless that dot is the first
      character: a dotfile keeps its whole name and gets extension "". */
  function SplitName(fileName: string): (r: (string, string))
    ensures r.0 + r.1 == fileName
    ensures IsExtension(r.1)
    ensures r.1 != [] ==> r.0 != []
    ensures r.1 == [] <==> !HasInnerDot(fileName)
  {
    var i := LastIndexOf(fileName, '.');
    if i > 0 then
      assert fileName[..i] + fileName[i..] == fileName;
      assert fileName[i..][1..] == fileName[i + 1..];
      (fileName[..i], fileName[i..])
    else
      (fileName, "")
  }

  /** The four properties of SplitName's contract determine its result. */
  lemma SplitNameUnique(fileName: string, name: string, extension: string)
    requires name + extension == fileName
    requires IsExtension(extension)
    requires extension != [] ==> name != []
    requires extension == [] ==> !HasInnerDot(fileName)
    ensures SplitName(fileName) == (name, extension)
  {
    var i := LastIndexOf(fileName, '.');
    if extension == [] {
      assert name == fileName;
      assert i <= 0;
    } else {
      var j := |name|;
      assert fileName[j] == extension[0] == '.';
      forall k | j < k < |fileName|
        ensures fileName[k] != '.'
      {
        assert fileName[k] == extension[1..][k - j - 1];
      }
      assert i == j;
      assert fileName[..i] == name;
      assert fileName[i..] == extension;
    }
  }

  /** Formats one raw entry under the directory `parent` (relative to
      the project root, "" for the root itself). */
  function FormatEntry(parent: string, raw: RawEntry): (r: Entry)
    ensures r.File? <==> raw.isFile
    ensures r.File? ==> r.name + r.extension == raw.name && IsExtension(r.extension)
    ensures r.File? ==> (r.extension == [] <==> !HasInnerDot(raw.name))
    ensures r.File? && r.extension != [] ==> r.name != []
    ensures r.Directory? ==> r.name == raw.name && r.directory == parent + raw.name + "/"
  {
    if raw.isFile then
      var (name, extension) := SplitName(raw.name);
      File(name, extension)
    else
      Directory(raw.name, parent + raw.name + "/")
  }

  /** `_formatDirectoryContents`: one display entry per raw entry, in the
      same order. */
  function FormatDirectoryContents(parent: string, contents: seq<RawEntry>): (r: seq<Entry>)
    ensures |r| == |contents|
    ensures forall i :: 0 <= i < |contents| ==> r[i] == FormatEntry(parent, contents[i])
  {
    if contents == [] then []
    else [FormatEntry(parent, contents[0])] + FormatDirectoryContents(parent, contents[1..])
  }

  /** Every directory entry of a formatted listing lies directly inside
      `parent` and names a directory path. */
  lemma FormattedDirectoriesUnderParent(parent: string, contents: seq<RawEntry>)
    ensures forall e :: e in FormatDirectoryContents(parent, contents) && e.Directory? ==>
      |e.directory| > |parent| && e.directory[..|parent|] == parent && EndsWithSlash(e.directory)
  {
    var r := FormatDirectoryContents(parent, contents);
    forall e | e in r && e.Directory?
      ensures |e.directory| > |parent| && e.directory[..|parent|] == parent && EndsWithSlash(e.directory)
    {
      var i :| 0 <= i < |r| && r[i] == e;
      assert e.directory == parent + contents[i].name + "/";
    }
  }
}
