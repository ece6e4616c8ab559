/**
 * A node of the library's file browser: it wraps one file, may carry an
 * explicit name and summary, and lists the openable files of a directory
 * or archive as its children. A `.fb2.zip` archive that holds a single
 * `.fb2` book is shown as that book.
 *
 * Files, books and format plugins are values and parameters here: the file
 * system, the book database and the plugin registry are not modelled.
 */
module LibraryFileTree {
  import opened Wrappers

  /** A file as the library sees it; `children` are the entries of a directory or archive. */
  datatype ZLFile = ZLFile(
    path: string,
    shortName: string,
    longName: string,
    isArchive: bool,
    isDirectory: bool,
    isReadable: bool,
    children: seq<ZLFile>)

  /** A book known to the library for a file; its title may be missing. */
  datatype Book = Book(title: Option<string>)

  /** The library's books, by the file they were read from. */
  type Books = map<ZLFile, Book>

  /** A node: the wrapped file, its optional name and summary, and whether it can be selected. */
  datatype FileTree = FileTree(file: ZLFile, name: Option<string>, summary: Option<string>, isSelectable: bool)

  datatype Status = CannotOpen | AlwaysReloadBeforeOpening

  /** `s` ends with `suffix`. */
  predicate EndsWith(s: string, suffix: string)
  {
    |suffix| <= |s| && s[|s| - |suffix|..] == suffix
  }

  /** The file is a `.fb2.zip` archive holding exactly one entry, and that entry is a `.fb2` book. */
  predicate Unwraps(file: ZLFile)
  {
    file.isArchive && EndsWith(file.path, ".fb2.zip") &&
    |file.children| == 1 && EndsWith(file.children[0].path, ".fb2")
  }

  /** The node built with an explicit name and summary: it is never selectable. */
  function NewNamed(file: ZLFile, name: Option<string>, summary: Option<string>): (t: FileTree)
    ensures t.file == file && t.name == name && t.summary == summary
    ensures !t.isSelectable
  {
    FileTree(file, name, summary, false)
  }

  /**
   * The node built for a file met while browsing: a single-book `.fb2.zip`
   * archive is replaced by its book under the archive's long name, and any
   * other file is wrapped as it is, without name. Either way it has no
   * summary and is selectable.
   */
  function FromFile(file: ZLFile): (t: FileTree)
    ensures Unwraps(file) ==> t.file == file.children[0] && t.name == Some(file.longName)
    ensures !Unwraps(file) ==> t.file == file && t.name == None
    ensures t.summary == None && t.isSelectable
  {
    if Unwraps(file) then FileTree(file.children[0], Some(file.longName), None, true)
    else FileTree(file, None, None, true)
  }

  /** The displayed name: the explicit one, or else the file's short name. */
  function GetName(t: FileTree): (name: string)
    ensures t.name.Some? ==> name == t.name.value
    ensures t.name.None? ==> name == t.file.shortName
  {
    if t.name.Some? then t.name.value else t.file.shortName
  }

  /** The title in the tree is the wrapped file's path. */
  function TreeTitle(t: FileTree): (title: string)
    ensures title == StringId(t)
  {
    t.file.path
  }

  /** The node's identifier, also the wrapped file's path. */
  function StringId(t: FileTree): (id: string)
    ensures id == t.file.path
  {
    t.file.path
  }

  /** The summary: the explicit one, else the title of the file's book, else none. */
  function GetSummary(t: FileTree, books: Books): (summary: Option<string>)
    ensures t.summary.Some? ==> summary == t.summary
    ensures t.summary.None? && t.file in books ==> summary == books[t.file].title
    ensures t.summary.None? && t.file !in books ==> summary == None
  {
    if t.summary.Some? then t.summary
    else if t.file in books then books[t.file].title
    else None
  }

  /** An unreadable file cannot be opened; a readable one is reloaded on every opening. */
  function OpeningStatus(t: FileTree): (status: Status)
    ensures status == CannotOpen <==> !t.file.isReadable
  {
    if !t.file.isReadable then CannotOpen else AlwaysReloadBeforeOpening
  }

  /** The message shown for the opening status: "permissionDenied" exactly when the node cannot be opened. */
  function OpeningStatusMessage(t: FileTree): (message: Option<string>)
    ensures message == Some("permissionDenied") <==> OpeningStatus(t) == CannotOpen
    ensures message.None? <==> OpeningStatus(t) == AlwaysReloadBeforeOpening
  {
    if OpeningStatus(t) == CannotOpen then Some("permissionDenied") else None
  }

  // ---- names and their order

  /** Lower case for ASCII letters; other characters are left alone. */
  function Lower(c: char): char
  {
    if 'A' <= c <= 'Z' then (c as int + 32) as char else c
  }

  /** A string with every ASCII letter in lower case. */
  function FoldCase(s: string): (r: string)
    ensures |r| == |s|
    ensures forall i :: 0 <= i < |s| ==> r[i] == Lower(s[i])
  {
    seq(|s|, i requires 0 <= i < |s| => Lower(s[i]))
  }

  /**
   * Case-insensitive comparison: the difference of the first characters
   * that differ after folding, or else the difference of the lengths.
   */
  function CompareIgnoreCase(a: string, b: string): (r: int)
    // a name compares equal to itself, and never to a name of another length
    ensures a == b ==> r == 0
    ensures r == 0 ==> |a| == |b|
    decreases |a|
  {
    if a == [] || b == [] then |a| - |b|
    else if Lower(a[0]) != Lower(b[0]) then Lower(a[0]) as int - Lower(b[0]) as int
    else CompareIgnoreCase(a[1..], b[1..])
  }

  /** Swapping the operands negates the comparison. */
  lemma {:induction false} CompareIgnoreCaseAntisymmetric(a: string, b: string)
    ensures CompareIgnoreCase(a, b) == -CompareIgnoreCase(b, a)
    decreases |a|
  {
    if a != [] && b != [] && Lower(a[0]) == Lower(b[0]) {
      CompareIgnoreCaseAntisymmetric(a[1..], b[1..]);
    }
  }

  /** Two names compare equal exactly when they are equal up to ASCII case. */
  lemma {:induction false} CompareIgnoreCaseZero(a: string, b: string)
    ensures CompareIgnoreCase(a, b) == 0 <==> FoldCase(a) == FoldCase(b)
    decreases |a|
  {
    if a != [] && b != [] {
      CompareIgnoreCaseZero(a[1..], b[1..]);
      var fa, fb := FoldCase(a), FoldCase(b);
      assert FoldCase(a[1..]) == fa[1..];
      assert FoldCase(b[1..]) == fb[1..];
      if fa == fb {
        assert fa[0] == fb[0];
      }
      if Lower(a[0]) == Lower(b[0]) && fa[1..] == fb[1..] {
        assert fa == [fa[0]] + fa[1..] && fb == [fb[0]] + fb[1..];
      }
    }
  }

  /** "Sorts before" is transitive. */
  lemma {:induction false} CompareIgnoreCaseTransitive(a: string, b: string, c: string)
    requires CompareIgnoreCase(a, b) < 0 && CompareIgnoreCase(b, c) < 0
    ensures CompareIgnoreCase(a, c) < 0
    decreases |a|
  {
    if a != [] && b != [] && c != [] &&
       Lower(a[0]) == Lower(b[0]) && Lower(b[0]) == Lower(c[0]) {
      CompareIgnoreCaseTransitive(a[1..], b[1..], c[1..]);
    }
  }

  /** Directories before other files, and nodes of the same kind by case-insensitive name. */
  function CompareTo(t: FileTree, u: FileTree): (r: int)
    ensures t.file.isDirectory && !u.file.isDirectory ==> r == -1
    ensures !t.file.isDirectory && u.file.isDirectory ==> r == 1
    ensures t.file.isDirectory == u.file.isDirectory ==> r == CompareIgnoreCase(GetName(t), GetName(u))
  {
    var isDir := t.file.isDirectory;
    if isDir != u.file.isDirectory then (if isDir then -1 else 1)
    else CompareIgnoreCase(GetName(t), GetName(u))
  }

  /** The node order is antisymmetric: swapping the nodes negates the result. */
  lemma CompareToAntisymmetric(t: FileTree, u: FileTree)
    ensures CompareTo(t, u) == -CompareTo(u, t)
  {
    CompareIgnoreCaseAntisymmetric(GetName(t), GetName(u));
  }

  /** Two nodes compare equal exactly when they are of the same kind and their names agree up to case. */
  lemma CompareToZero(t: FileTree, u: FileTree)
    ensures CompareTo(t, u) == 0 <==>
              t.file.isDirectory == u.file.isDirectory && FoldCase(GetName(t)) == FoldCase(GetName(u))
  {
    CompareIgnoreCaseZero(GetName(t), GetName(u));
  }

  /** The node order is transitive, so sorting children by it is well defined. */
  lemma CompareToTransitive(t: FileTree, u: FileTree, v: FileTree)
    requires CompareTo(t, u) < 0 && CompareTo(u, v) < 0
    ensures CompareTo(t, v) < 0
  {
    if t.file.isDirectory == u.file.isDirectory == v.file.isDirectory {
      CompareIgnoreCaseTransitive(GetName(t), GetName(u), GetName(v));
    }
  }

  // ---- what the constructors produce

  /** A `.fb2` path never ends with `.fb2.zip`. */
  lemma Fb2IsNotZip(s: string)
    requires EndsWith(s, ".fb2")
    ensures !EndsWith(s, ".fb2.zip")
  {
    assert s[|s| - 1] == ".fb2"[3];
  }

  /** Browsing the file a node wraps again yields the same node: an unwrapped book is not unwrapped further. */
  lemma FromFileStable(file: ZLFile)
    ensures !Unwraps(FromFile(file).file)
    ensures FromFile(FromFile(file).file).file == FromFile(file).file
  {
    if Unwraps(file) {
      Fb2IsNotZip(file.children[0].path);
    }
  }

  /** The name a browsed node shows: the archive's long name for an unwrapped book, else the file's short name. */
  lemma NameOfFromFile(file: ZLFile)
    ensures GetName(FromFile(file)) == if Unwraps(file) then file.longName else file.shortName
  {
  }

  /**
   * A browsed node is titled and identified by the same path: the `.fb2`
   * book's path for an unwrapped archive, else the file's own path.
   */
  lemma TitleOfFromFile(file: ZLFile)
    ensures TreeTitle(FromFile(file)) == StringId(FromFile(file))
    ensures Unwraps(file) ==> EndsWith(TreeTitle(FromFile(file)), ".fb2")
    ensures !Unwraps(file) ==> TreeTitle(FromFile(file)) == file.path
  {
  }

  /** A named node shows its own name and summary when it has them, and is titled by its file's path. */
  lemma NamedNodeShowsOwn(file: ZLFile, name: Option<string>, summary: Option<string>, books: Books)
    ensures GetName(NewNamed(file, name, summary)) == if name.Some? then name.value else file.shortName
    ensures summary.Some? ==> GetSummary(NewNamed(file, name, summary), books) == summary
    ensures TreeTitle(NewNamed(file, name, summary)) == StringId(NewNamed(file, name, summary)) == file.path
  {
  }

  /** A browsed node's summary is its book's title when the library knows the wrapped file. */
  lemma SummaryOfFromFile(file: ZLFile, books: Books)
    ensures GetSummary(FromFile(file), books) ==
              if FromFile(file).file in books then books[FromFile(file).file].title else None
  {
  }

  // ---- opening a node

  /** Whether a child is listed: directories, archives and files some format plugin reads. */
  predicate Listed(file: ZLFile, hasPlugin: ZLFile -> bool)
  {
    file.isDirectory || file.isArchive || hasPlugin(file)
  }

  /** The nodes for the listed entries, in the order of the entries. */
  function ListedNodes(entries: seq<ZLFile>, hasPlugin: ZLFile -> bool): seq<FileTree>
    decreases |entries|
  {
    if entries == [] then []
    else
      var last := entries[|entries| - 1];
      ListedNodes(entries[..|entries| - 1], hasPlugin) + (if Listed(last, hasPlugin) then [FromFile(last)] else [])
  }

  /** Exactly the listed entries get a node, and no node comes from elsewhere. */
  lemma {:induction false} ListedNodesMembers(entries: seq<ZLFile>, hasPlugin: ZLFile -> bool, t: FileTree)
    ensures t in ListedNodes(entries, hasPlugin) <==>
              exists i :: 0 <= i < |entries| && Listed(entries[i], hasPlugin) && t == FromFile(entries[i])
    decreases |entries|
  {
    if entries != [] {
      var init, last := entries[..|entries| - 1], entries[|entries| - 1];
      ListedNodesMembers(init, hasPlugin, t);
      if exists i :: 0 <= i < |entries| && Listed(entries[i], hasPlugin) && t == FromFile(entries[i]) {
        var i :| 0 <= i < |entries| && Listed(entries[i], hasPlugin) && t == FromFile(entries[i]);
        if i < |init| {
          assert init[i] == entries[i];
        }
      }
      if t in ListedNodes(init, hasPlugin) {
        var i :| 0 <= i < |init| && Listed(init[i], hasPlugin) && t == FromFile(init[i]);
        assert entries[i] == init[i];
      }
    }
  }

  /** There are never more nodes than entries. */
  lemma {:induction false} ListedNodesLength(entries: seq<ZLFile>, hasPlugin: ZLFile -> bool)
    ensures |ListedNodes(entries, hasPlugin)| <= |entries|
    ensures (forall i :: 0 <= i < |entries| ==> Listed(entries[i], hasPlugin)) ==>
              |ListedNodes(entries, hasPlugin)| == |entries|
    decreases |entries|
  {
    if entries != [] {
      var init := entries[..|entries| - 1];
      ListedNodesLength(init, hasPlugin);
      if forall i :: 0 <= i < |entries| ==> Listed(entries[i], hasPlugin) {
        forall i | 0 <= i < |init|
          ensures Listed(init[i], hasPlugin)
        {
          assert init[i] == entries[i];
        }
      }
    }
  }

  /**
   * Opening a node: when the library has a book for the file the children
   * stay as they are; otherwise they are replaced by a node for each
   * listed entry of the file, in order. The sort that follows is not part
   * of this model.
   */
  method WaitForOpening(t: FileTree, books: Books, hasPlugin: ZLFile -> bool, current: seq<FileTree>)
    returns (children: seq<FileTree>)
    ensures t.file in books ==> children == current
    ensures t.file !in books ==> children == ListedNodes(t.file.children, hasPlugin)
  {
    if t.file in books {
      return current;
    }
    children := [];
    var entries := t.file.children;
    for i := 0 to |entries|
      invariant children == ListedNodes(entries[..i], hasPlugin)
    {
      assert entries[..i + 1][..i] == entries[..i];
      if Listed(entries[i], hasPlugin) {
        children := children + [FromFile(entries[i])];
      }
    }
    assert entries[..|entries|] == entries;
  }
}
