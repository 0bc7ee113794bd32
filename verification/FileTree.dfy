/**
 The tree of changed files (crates/core/src/file_tree.rs). A path is the list of
 its parts between slashes, so the empty text is one empty part; a map sorted by
 key is a list in key order.
 */
module FileTree {
  import opened Collections
  import opened Wrappers

  datatype Name = Name(text: string)

  datatype FileId = FileId(text: string)

  type Path = seq<Name>

  datatype Entry = Entry(id: FileId, path: Path)

  datatype File = File(name: Name, id: FileId, path: Path)

  datatype Directory = Directory(dirs: Dirs, files: seq<File>)

  datatype Dirs = End | More(name: Name, dir: Directory, rest: Dirs)

  const EMPTY := Directory(End, [])

  /** The text "", which also stands for the root. */
  const NO_TEXT: Path := [Name("")]

  // ----- order -----

  predicate Less(a: string, b: string) {
    b != "" && (a == "" || a[0] < b[0] || (a[0] == b[0] && Less(a[1..], b[1..])))
  }

  lemma {:induction false} LessIsTotal(a: string, b: string)
    ensures a == b || Less(a, b) || Less(b, a)
    ensures !(a == b && Less(a, b)) && !(Less(a, b) && Less(b, a))
  {
    if a != "" && b != "" {
      LessIsTotal(a[1..], b[1..]);
      assert a == [a[0]] + a[1..] && b == [b[0]] + b[1..];
    }
  }

  lemma {:induction false} LessIsTransitive(a: string, b: string, c: string)
    requires Less(a, b) && Less(b, c)
    ensures Less(a, c)
  {
    if a != "" && a[0] == b[0] == c[0] {
      LessIsTransitive(a[1..], b[1..], c[1..]);
    }
  }

  predicate NameLess(a: Name, b: Name) {
    Less(a.text, b.text)
  }

  predicate FileLess(f: File, g: File) {
    NameLess(f.name, g.name) || (f.name == g.name && Less(f.id.text, g.id.text))
  }

  predicate SameKey(f: File, g: File) {
    f.name == g.name && f.id == g.id
  }

  lemma {:induction false} FileLessIsTotal(f: File, g: File)
    ensures SameKey(f, g) || FileLess(f, g) || FileLess(g, f)
    ensures !(SameKey(f, g) && FileLess(f, g)) && !(FileLess(f, g) && FileLess(g, f))
  {
    LessIsTotal(f.name.text, g.name.text);
    LessIsTotal(f.id.text, g.id.text);
  }

  lemma {:induction false} FileLessIsTransitive(f: File, g: File, h: File)
    requires FileLess(f, g) && FileLess(g, h)
    ensures FileLess(f, h)
  {
    if NameLess(f.name, g.name) && NameLess(g.name, h.name) {
      LessIsTransitive(f.name.text, g.name.text, h.name.text);
    } else if f.name == g.name == h.name {
      LessIsTransitive(f.id.text, g.id.text, h.id.text);
    }
  }

  // ----- building -----

  function PutFile(files: seq<File>, f: File): seq<File> {
    if files == [] then [f]
    else if SameKey(files[0], f) then [f] + files[1..]
    else if FileLess(f, files[0]) then [f] + files
    else [files[0]] + PutFile(files[1..], f)
  }

  /** The file with the remaining `parts` goes below `dir`. */
  function Insert(dir: Directory, parts: Path, e: Entry): Directory
    requires parts != []
    decreases |parts|, 1, dir
  {
    if |parts| == 1 then dir.(files := PutFile(dir.files, File(parts[0], e.id, e.path)))
    else dir.(dirs := PutDir(dir.dirs, parts, e))
  }

  function PutDir(dirs: Dirs, parts: Path, e: Entry): Dirs
    requires |parts| > 1
    decreases |parts|, 0, dirs
  {
    if dirs.End? || NameLess(parts[0], dirs.name) then More(parts[0], Insert(EMPTY, parts[1..], e), dirs)
    else if dirs.name == parts[0] then dirs.(dir := Insert(dirs.dir, parts[1..], e))
    else dirs.(rest := PutDir(dirs.rest, parts, e))
  }

  function Build(entries: seq<Entry>, matches: Entry -> bool): Directory
    requires forall k :: 0 <= k < |entries| ==> entries[k].path != []
  {
    if entries == [] then EMPTY
    else
      var e, before := entries[|entries| - 1], Build(entries[..|entries| - 1], matches);
      if matches(e) then Insert(before, e.path, e) else before
  }

  // ----- flattening -----

  /** `prefix` is empty or the folded folders before the title (the label of the source). */
  datatype Row = Row(
    path: Path,
    title: Path,
    prefix: Path,
    depth: nat,
    file: Option<FileId>,
    expanded: bool,
    previous: Option<Path>)

  datatype View = View(collapsed: set<Path>, filtering: bool, renamed: map<FileId, Path>)

  function Under(parent: Path, name: Name): Path {
    if parent == NO_TEXT then [name] else parent + [name]
  }

  function OldPath(v: View, id: FileId): Option<Path> {
    if id in v.renamed then Some(v.renamed[id]) else None
  }

  function FileRow(v: View, f: File, prefix: Path, depth: nat): Row {
    Row(f.path, [f.name], prefix, depth, Some(f.id), false, OldPath(v, f.id))
  }

  function FileRows(v: View, files: seq<File>, depth: nat): seq<Row> {
    if files == [] then [] else FileRows(v, files[..|files| - 1], depth) + [FileRow(v, files[|files| - 1], [], depth)]
  }

  datatype Folded = Folded(title: Path, path: Path, node: Directory)

  predicate IsChain(node: Directory) {
    node.files == [] && node.dirs.More? && node.dirs.rest.End?
  }

  /** A folder that holds only one folder is shown with it. */
  function Fold(title: Path, path: Path, node: Directory): (f: Folded)
    ensures f.node == node || f.node < node
    decreases node
  {
    if IsChain(node) then Fold(title + [node.dirs.name], path + [node.dirs.name], node.dirs.dir)
    else Folded(title, path, node)
  }

  predicate IsSingle(node: Directory) {
    node.dirs.End? && |node.files| == 1
  }

  predicate Expands(v: View, path: Path) {
    v.filtering || path !in v.collapsed
  }

  function Shown(v: View, dir: Directory, parent: Path, depth: nat): seq<Row>
    decreases dir, 1
  {
    ShownDirs(v, dir.dirs, parent, depth) + FileRows(v, dir.files, depth)
  }

  function ShownDirs(v: View, dirs: Dirs, parent: Path, depth: nat): seq<Row>
    decreases dirs, 0
  {
    if dirs.End? then [] else ShownDir(v, dirs.name, dirs.dir, parent, depth) + ShownDirs(v, dirs.rest, parent, depth)
  }

  function FolderRow(v: View, f: Folded, depth: nat): Row {
    Row(f.path, f.title, [], depth, None, Expands(v, f.path), None)
  }

  function ShownDir(v: View, name: Name, dir: Directory, parent: Path, depth: nat): seq<Row>
    decreases dir, 4
  {
    var f := Fold([name], Under(parent, name), dir);
    if IsSingle(f.node) then [FileRow(v, f.node.files[0], f.title, depth)]
    else FolderShown(v, f, depth)
  }

  /** A folder's row and, if it is open, the rows below it. */
  function FolderShown(v: View, f: Folded, depth: nat): seq<Row>
    decreases f.node, 3
  {
    [FolderRow(v, f, depth)] + if Expands(v, f.path) then Shown(v, f.node, f.path, depth + 1) else []
  }

  method Flatten(v: View, dir: Directory, parent: Path, depth: nat, rows: seq<Row>) returns (out: seq<Row>)
    ensures out == rows + Shown(v, dir, parent, depth)
    decreases dir
  {
    out := rows;
    var dirs := dir.dirs;
    while dirs.More?
      invariant dirs == dir.dirs || dirs < dir.dirs
      invariant out + ShownDirs(v, dirs, parent, depth) == rows + ShownDirs(v, dir.dirs, parent, depth)
      decreases dirs
    {
      ghost var before := out;
      var title, path, node := FollowChain([dirs.name], Under(parent, dirs.name), dirs.dir);
      if IsSingle(node) {
        out := out + [FileRow(v, node.files[0], title, depth)];
      } else {
        var expanded := Expands(v, path);
        out := out + [Row(path, title, [], depth, None, expanded, None)];
        if expanded {
          out := Flatten(v, node, path, depth + 1, out);
        }
      }
      assert out == before + ShownDir(v, dirs.name, dirs.dir, parent, depth);
      Regroup(before, ShownDir(v, dirs.name, dirs.dir, parent, depth), ShownDirs(v, dirs.rest, parent, depth));
      dirs := dirs.rest;
    }
    assert out + [] == out;
    out := AppendFiles(v, dir.files, depth, out);
    Regroup(rows, ShownDirs(v, dir.dirs, parent, depth), FileRows(v, dir.files, depth));
  }

  method FollowChain(title0: Path, path0: Path, node0: Directory) returns (title: Path, path: Path, node: Directory)
    ensures Folded(title, path, node) == Fold(title0, path0, node0)
  {
    title, path, node := title0, path0, node0;
    while IsChain(node)
      invariant Fold(title, path, node) == Fold(title0, path0, node0)
      decreases node
    {
      title, path := title + [node.dirs.name], path + [node.dirs.name];
      node := node.dirs.dir;
    }
  }

  method AppendFiles(v: View, files: seq<File>, depth: nat, rows: seq<Row>) returns (out: seq<Row>)
    ensures out == rows + FileRows(v, files, depth)
  {
    out := rows;
    for n := 0 to |files|
      invariant out == rows + FileRows(v, files[..n], depth)
    {
      out := out + [FileRow(v, files[n], [], depth)];
      assert files[..n + 1][..n] == files[..n];
    }
    assert files[..|files|] == files;
  }

  /** Builds the tree of the matching entries and lists its rows. */
  method Rows(entries: seq<Entry>, matches: Entry -> bool, v: View) returns (rows: seq<Row>)
    requires forall k :: 0 <= k < |entries| ==> entries[k].path != []
    ensures rows == Shown(v, Build(entries, matches), NO_TEXT, 0)
  {
    var root := EMPTY;
    for n := 0 to |entries|
      invariant root == Build(entries[..n], matches)
    {
      assert entries[..n + 1][..n] == entries[..n];
      if matches(entries[n]) {
        root := Insert(root, entries[n].path, entries[n]);
      }
    }
    assert entries[..|entries|] == entries;
    rows := Flatten(v, root, NO_TEXT, 0, []);
  }

  // ----- the files of the tree -----

  function EntriesOf(files: seq<File>): (s: seq<Entry>)
    ensures |s| == |files| && forall k :: 0 <= k < |s| ==> s[k] == Entry(files[k].id, files[k].path)
  {
    if files == [] then []
    else
      var f := files[|files| - 1];
      EntriesOf(files[..|files| - 1]) + [Entry(f.id, f.path)]
  }

  /** All files below `dir`, in the order of the rows. */
  function Listed(dir: Directory): seq<Entry> {
    ListedDirs(dir.dirs) + EntriesOf(dir.files)
  }

  function ListedDirs(dirs: Dirs): seq<Entry> {
    if dirs.End? then [] else Listed(dirs.dir) + ListedDirs(dirs.rest)
  }

  function RowEntries(rows: seq<Row>): seq<Entry> {
    if rows == [] then []
    else
      var r := rows[|rows| - 1];
      RowEntries(rows[..|rows| - 1]) + if r.file.Some? then [Entry(r.file.value, r.path)] else []
  }

  lemma {:induction false} RowEntriesJoin(a: seq<Row>, b: seq<Row>)
    ensures RowEntries(a + b) == RowEntries(a) + RowEntries(b)
  {
    if b == [] {
      assert a + b == a;
    } else {
      assert (a + b)[..|a + b| - 1] == a + b[..|b| - 1];
      RowEntriesJoin(a, b[..|b| - 1]);
    }
  }

  lemma {:induction false} FileRowsEntries(v: View, files: seq<File>, depth: nat)
    ensures RowEntries(FileRows(v, files, depth)) == EntriesOf(files)
  {
    if files != [] {
      FileRowsEntries(v, files[..|files| - 1], depth);
    }
  }

  lemma {:induction false} FoldKeepsListed(title: Path, path: Path, node: Directory)
    ensures Listed(Fold(title, path, node).node) == Listed(node)
    decreases node
  {
    if IsChain(node) {
      FoldKeepsListed(title + [node.dirs.name], path + [node.dirs.name], node.dirs.dir);
      assert ListedDirs(node.dirs.rest) == [] && EntriesOf(node.files) == [];
    }
  }

  predicate AllExpanded(v: View) {
    v.filtering || v.collapsed == {}
  }

  lemma {:induction false} ShownFiles(v: View, dir: Directory, parent: Path, depth: nat)
    requires AllExpanded(v)
    ensures RowEntries(Shown(v, dir, parent, depth)) == Listed(dir)
    decreases dir, 1
  {
    RowEntriesJoin(ShownDirs(v, dir.dirs, parent, depth), FileRows(v, dir.files, depth));
    ShownDirsFiles(v, dir.dirs, parent, depth);
    FileRowsEntries(v, dir.files, depth);
  }

  lemma {:induction false} ShownDirsFiles(v: View, dirs: Dirs, parent: Path, depth: nat)
    requires AllExpanded(v)
    ensures RowEntries(ShownDirs(v, dirs, parent, depth)) == ListedDirs(dirs)
    decreases dirs, 0
  {
    if dirs.More? {
      RowEntriesJoin(ShownDir(v, dirs.name, dirs.dir, parent, depth), ShownDirs(v, dirs.rest, parent, depth));
      ShownDirFiles(v, dirs.name, dirs.dir, parent, depth);
      ShownDirsFiles(v, dirs.rest, parent, depth);
    }
  }

  lemma {:induction false} ShownDirFiles(v: View, name: Name, dir: Directory, parent: Path, depth: nat)
    requires AllExpanded(v)
    ensures RowEntries(ShownDir(v, name, dir, parent, depth)) == Listed(dir)
    decreases dir, 2
  {
    var f := Fold([name], Under(parent, name), dir);
    FoldKeepsListed([name], Under(parent, name), dir);
    if IsSingle(f.node) {
      assert ListedDirs(f.node.dirs) == [];
      assert EntriesOf(f.node.files) == [Entry(f.node.files[0].id, f.node.files[0].path)];
      OneRow(FileRow(v, f.node.files[0], f.title, depth));
    } else {
      OneRow(FolderRow(v, f, depth));
      RowEntriesJoin([FolderRow(v, f, depth)], Shown(v, f.node, f.path, depth + 1));
      ShownFiles(v, f.node, f.path, depth + 1);
    }
  }

  lemma {:induction false} OneRow(r: Row)
    ensures RowEntries([r]) == if r.file.Some? then [Entry(r.file.value, r.path)] else []
  {
    assert [r][..0] == [];
  }

  // ----- a well-made tree -----

  predicate Above(dirs: Dirs, name: Name) {
    dirs.End? || (NameLess(name, dirs.name) && Above(dirs.rest, name))
  }

  predicate SortedFiles(files: seq<File>) {
    forall i, j :: 0 <= i < j < |files| ==> FileLess(files[i], files[j])
  }

  /** The maps are sorted by key, and every file sits where its path says. `at` leads to `dir`. */
  predicate Good(dir: Directory, at: Path) {
    && GoodDirs(dir.dirs, at)
    && SortedFiles(dir.files)
    && forall k :: 0 <= k < |dir.files| ==> dir.files[k].path == at + [dir.files[k].name]
  }

  predicate GoodDirs(dirs: Dirs, at: Path) {
    dirs.End? || (Good(dirs.dir, at + [dirs.name]) && GoodDirs(dirs.rest, at) && Above(dirs.rest, dirs.name))
  }

  lemma {:induction false} PutFileKeeps(files: seq<File>, f: File)
    requires SortedFiles(files)
    ensures SortedFiles(PutFile(files, f))
    ensures forall g :: g in PutFile(files, f) <==> g == f || (g in files && !SameKey(g, f))
  {
    if files != [] {
      var first, rest := files[0], files[1..];
      assert files == [first] + rest;
      FileLessIsTotal(first, f);
      forall g | g in rest ensures FileLess(first, g) {
        var k :| 0 <= k < |rest| && rest[k] == g;
        assert files[k + 1] == g;
      }
      if SameKey(first, f) || FileLess(f, first) {
        forall g | g in rest ensures FileLess(f, g) && !SameKey(g, f) {
          if FileLess(f, first) {
            FileLessIsTransitive(f, first, g);
          }
          FileLessIsTotal(f, g);
        }
      } else {
        PutFileKeeps(rest, f);
      }
    }
  }

  lemma {:induction false} AboveTransitive(dirs: Dirs, a: Name, b: Name)
    requires Above(dirs, b) && NameLess(a, b)
    ensures Above(dirs, a)
    decreases dirs
  {
    if dirs.More? {
      LessIsTransitive(a.text, b.text, dirs.name.text);
      AboveTransitive(dirs.rest, a, b);
    }
  }

  lemma {:induction false} PutDirAbove(dirs: Dirs, parts: Path, e: Entry, name: Name)
    requires |parts| > 1 && Above(dirs, name) && NameLess(name, parts[0])
    ensures Above(PutDir(dirs, parts, e), name)
    decreases dirs
  {
    if dirs.More? && dirs.name != parts[0] && !NameLess(parts[0], dirs.name) {
      PutDirAbove(dirs.rest, parts, e, name);
    }
  }

  lemma {:induction false} InsertKeepsGood(dir: Directory, parts: Path, e: Entry, at: Path)
    requires parts != [] && Good(dir, at) && e.path == at + parts
    ensures Good(Insert(dir, parts, e), at)
    decreases |parts|, 1, dir
  {
    if |parts| == 1 {
      var f := File(parts[0], e.id, e.path);
      PutFileKeeps(dir.files, f);
      var files := PutFile(dir.files, f);
      forall k | 0 <= k < |files| ensures files[k].path == at + [files[k].name] {
        assert files[k] in files;
      }
    } else {
      PutDirKeepsGood(dir.dirs, parts, e, at);
    }
  }

  lemma {:induction false} PutDirKeepsGood(dirs: Dirs, parts: Path, e: Entry, at: Path)
    requires |parts| > 1 && GoodDirs(dirs, at) && e.path == at + parts
    ensures GoodDirs(PutDir(dirs, parts, e), at)
    decreases |parts|, 0, dirs
  {
    assert e.path == at + [parts[0]] + parts[1..];
    if dirs.End? || NameLess(parts[0], dirs.name) {
      InsertKeepsGood(EMPTY, parts[1..], e, at + [parts[0]]);
      if dirs.More? {
        AboveTransitive(dirs.rest, parts[0], dirs.name);
      }
    } else if dirs.name == parts[0] {
      InsertKeepsGood(dirs.dir, parts[1..], e, at + [parts[0]]);
    } else {
      LessIsTotal(dirs.name.text, parts[0].text);
      PutDirKeepsGood(dirs.rest, parts, e, at);
      PutDirAbove(dirs.rest, parts, e, dirs.name);
    }
  }

  lemma {:induction false} EntriesOfHolds(files: seq<File>, x: Entry)
    ensures x in EntriesOf(files) <==> exists f :: f in files && x == Entry(f.id, f.path)
  {
    if x in EntriesOf(files) {
      var k :| 0 <= k < |files| && EntriesOf(files)[k] == x;
      assert files[k] in files;
    }
    if f :| f in files && x == Entry(f.id, f.path) {
      var k :| 0 <= k < |files| && files[k] == f;
      assert EntriesOf(files)[k] == x;
    }
  }

  /** Inserting adds the entry and keeps the others: a key that is already there has the same path. */
  lemma {:induction false} InsertAdds(dir: Directory, parts: Path, e: Entry, at: Path, x: Entry)
    requires parts != [] && Good(dir, at) && e.path == at + parts
    ensures x in Listed(Insert(dir, parts, e)) <==> x == e || x in Listed(dir)
    decreases |parts|, 1, dir
  {
    if |parts| == 1 {
      PutFileAdds(dir.files, File(parts[0], e.id, e.path), at, x);
    } else {
      PutDirAdds(dir.dirs, parts, e, at, x);
    }
  }

  lemma {:induction false} PutFileAdds(files: seq<File>, f: File, at: Path, x: Entry)
    requires SortedFiles(files) && f.path == at + [f.name]
    requires forall k :: 0 <= k < |files| ==> files[k].path == at + [files[k].name]
    ensures x in EntriesOf(PutFile(files, f)) <==> x == Entry(f.id, f.path) || x in EntriesOf(files)
  {
    PutFileKeeps(files, f);
    EntriesOfHolds(files, x);
    EntriesOfHolds(PutFile(files, f), x);
    forall g | g in files && SameKey(g, f) ensures Entry(g.id, g.path) == Entry(f.id, f.path) {
      var k :| 0 <= k < |files| && files[k] == g;
    }
    assert f in PutFile(files, f);
    if x in EntriesOf(files) && x != Entry(f.id, f.path) {
      var g :| g in files && x == Entry(g.id, g.path);
      assert g in PutFile(files, f);
    }
  }

  lemma {:induction false} PutDirAdds(dirs: Dirs, parts: Path, e: Entry, at: Path, x: Entry)
    requires |parts| > 1 && GoodDirs(dirs, at) && e.path == at + parts
    ensures x in ListedDirs(PutDir(dirs, parts, e)) <==> x == e || x in ListedDirs(dirs)
    decreases |parts|, 0, dirs
  {
    assert e.path == at + [parts[0]] + parts[1..];
    if dirs.End? || NameLess(parts[0], dirs.name) {
      InsertAdds(EMPTY, parts[1..], e, at + [parts[0]], x);
      assert Listed(EMPTY) == [];
    } else if dirs.name == parts[0] {
      InsertAdds(dirs.dir, parts[1..], e, at + [parts[0]], x);
    } else {
      PutDirAdds(dirs.rest, parts, e, at, x);
    }
  }

  lemma {:induction false} BuildIsGood(entries: seq<Entry>, matches: Entry -> bool)
    requires forall k :: 0 <= k < |entries| ==> entries[k].path != []
    ensures Good(Build(entries, matches), [])
  {
    if entries != [] {
      var e := entries[|entries| - 1];
      BuildIsGood(entries[..|entries| - 1], matches);
      assert e.path == [] + e.path;
      InsertKeepsGood(Build(entries[..|entries| - 1], matches), e.path, e, []);
    }
  }

  lemma {:induction false} BuildHolds(entries: seq<Entry>, matches: Entry -> bool, x: Entry)
    requires forall k :: 0 <= k < |entries| ==> entries[k].path != []
    ensures x in Listed(Build(entries, matches)) <==> x in entries && matches(x)
  {
    if entries != [] {
      var before, e := entries[..|entries| - 1], entries[|entries| - 1];
      assert entries == before + [e] && e.path == [] + e.path;
      BuildHolds(before, matches, x);
      BuildIsGood(before, matches);
      InsertAdds(Build(before, matches), e.path, e, [], x);
    }
  }

  predicate Distinct(s: seq<Entry>) {
    forall i, j :: 0 <= i < j < |s| ==> s[i] != s[j]
  }

  predicate NameIn(dirs: Dirs, name: Name) {
    dirs.More? && (dirs.name == name || NameIn(dirs.rest, name))
  }

  lemma {:induction false} AboveAll(dirs: Dirs, a: Name, b: Name)
    requires Above(dirs, a) && NameIn(dirs, b)
    ensures NameLess(a, b)
    decreases dirs
  {
    if dirs.name != b {
      AboveAll(dirs.rest, a, b);
    }
  }

  /** What is listed below `dirs` is at least two levels down, in one of the folders. */
  lemma {:induction false} ListedBelowDirs(dirs: Dirs, at: Path, x: Entry)
    requires GoodDirs(dirs, at) && x in ListedDirs(dirs)
    ensures |x.path| > |at| + 1 && NameIn(dirs, x.path[|at|])
    decreases dirs, 0
  {
    if x in Listed(dirs.dir) {
      ListedBelow(dirs.dir, at + [dirs.name], x);
    } else {
      ListedBelowDirs(dirs.rest, at, x);
    }
  }

  lemma {:induction false} ListedBelow(dir: Directory, at: Path, x: Entry)
    requires Good(dir, at) && x in Listed(dir)
    ensures |x.path| > |at| && x.path[..|at|] == at
    decreases dir, 1
  {
    if x in EntriesOf(dir.files) {
      EntriesOfHolds(dir.files, x);
    } else {
      ListedUnderDirs(dir.dirs, at, x);
    }
  }

  lemma {:induction false} ListedUnderDirs(dirs: Dirs, at: Path, x: Entry)
    requires GoodDirs(dirs, at) && x in ListedDirs(dirs)
    ensures |x.path| > |at| && x.path[..|at|] == at
    decreases dirs, 0
  {
    if x in Listed(dirs.dir) {
      ListedBelow(dirs.dir, at + [dirs.name], x);
      assert x.path[..|at|] == x.path[..|at| + 1][..|at|] == (at + [dirs.name])[..|at|];
    } else {
      ListedUnderDirs(dirs.rest, at, x);
    }
  }

  lemma {:induction false} DistinctJoin(a: seq<Entry>, b: seq<Entry>)
    requires Distinct(a) && Distinct(b) && forall x :: x in a ==> x !in b
    ensures Distinct(a + b)
  {
    var s := a + b;
    forall i, j | 0 <= i < j < |s| ensures s[i] != s[j] {
      if i < |a| <= j {
        assert a[i] in a && b[j - |a|] in b;
      }
    }
  }

  lemma {:induction false} FilesDistinct(files: seq<File>, at: Path)
    requires SortedFiles(files) && forall k :: 0 <= k < |files| ==> files[k].path == at + [files[k].name]
    ensures Distinct(EntriesOf(files))
  {
    if files != [] {
      var front, last := files[..|files| - 1], files[|files| - 1];
      FilesDistinct(front, at);
      forall x | x in EntriesOf(front) ensures x != Entry(last.id, last.path) {
        EntriesOfHolds(front, x);
        var f :| f in front && x == Entry(f.id, f.path);
        FilesDiffer(f, last, at);
      }
      DistinctJoin(EntriesOf(front), [Entry(last.id, last.path)]);
    }
  }

  lemma {:induction false} FilesDiffer(f: File, g: File, at: Path)
    requires FileLess(f, g) && f.path == at + [f.name] && g.path == at + [g.name]
    ensures Entry(f.id, f.path) != Entry(g.id, g.path)
  {
    FileLessIsTotal(f, g);
    assert f.path[|at|] == f.name && g.path[|at|] == g.name;
  }

  /** No entry is listed twice. */
  lemma {:induction false} ListedDistinct(dir: Directory, at: Path)
    requires Good(dir, at)
    ensures Distinct(Listed(dir))
    decreases dir, 1
  {
    FilesDistinct(dir.files, at);
    ListedDirsDistinct(dir.dirs, at);
    forall x | x in ListedDirs(dir.dirs) ensures x !in EntriesOf(dir.files) {
      ListedBelowDirs(dir.dirs, at, x);
      EntriesOfHolds(dir.files, x);
    }
    DistinctJoin(ListedDirs(dir.dirs), EntriesOf(dir.files));
  }

  lemma {:induction false} ListedDirsDistinct(dirs: Dirs, at: Path)
    requires GoodDirs(dirs, at)
    ensures Distinct(ListedDirs(dirs))
    decreases dirs, 0
  {
    if dirs.More? {
      ListedDistinct(dirs.dir, at + [dirs.name]);
      ListedDirsDistinct(dirs.rest, at);
      forall x | x in Listed(dirs.dir) ensures x !in ListedDirs(dirs.rest) {
        OtherFolder(dirs, at, x);
      }
      DistinctJoin(Listed(dirs.dir), ListedDirs(dirs.rest));
    }
  }

  lemma {:induction false} OtherFolder(dirs: Dirs, at: Path, x: Entry)
    requires dirs.More? && GoodDirs(dirs, at) && x in Listed(dirs.dir)
    ensures x !in ListedDirs(dirs.rest)
  {
    ListedBelow(dirs.dir, at + [dirs.name], x);
    assert x.path[|at|] == x.path[..|at| + 1][|at|] == dirs.name;
    if x in ListedDirs(dirs.rest) {
      ListedBelowDirs(dirs.rest, at, x);
      AboveAll(dirs.rest, dirs.name, dirs.name);
      LessIsTotal(dirs.name.text, dirs.name.text);
    }
  }

  /** With every folder open, the file rows are exactly the matching entries, each once. */
  lemma {:induction false} RowsAreMatches(entries: seq<Entry>, matches: Entry -> bool, v: View)
    requires forall k :: 0 <= k < |entries| ==> entries[k].path != []
    requires AllExpanded(v)
    ensures var shown := RowEntries(Shown(v, Build(entries, matches), NO_TEXT, 0));
      Distinct(shown) && forall e :: e in shown <==> e in entries && matches(e)
  {
    var root := Build(entries, matches);
    ShownFiles(v, root, NO_TEXT, 0);
    BuildIsGood(entries, matches);
    ListedDistinct(root, []);
    forall e ensures e in Listed(root) <==> e in entries && matches(e) {
      BuildHolds(entries, matches, e);
    }
  }

  // ----- collapsing -----

  /** The rows after those that are strictly below a row of this depth. */
  function DropBelow(rows: seq<Row>, depth: nat): (rest: seq<Row>)
    ensures |rest| <= |rows|
  {
    if rows != [] && rows[0].depth > depth then DropBelow(rows[1..], depth) else rows
  }

  /** Closes the collapsed folders among open rows: what is below them goes, all else stays. */
  function Collapse(rows: seq<Row>, collapsed: set<Path>): seq<Row>
    decreases |rows|
  {
    if rows == [] then [] else [Closed(rows[0], collapsed)] + Collapse(Left(rows, collapsed), collapsed)
  }

  predicate Closes(r: Row, collapsed: set<Path>) {
    r.file.None? && r.path in collapsed
  }

  function Closed(r: Row, collapsed: set<Path>): Row {
    if Closes(r, collapsed) then r.(expanded := false) else r
  }

  /** The rows left after the first one. */
  function Left(rows: seq<Row>, collapsed: set<Path>): (rest: seq<Row>)
    requires rows != []
    ensures |rest| < |rows|
  {
    if Closes(rows[0], collapsed) then DropBelow(rows[1..], rows[0].depth) else rows[1..]
  }

  predicate Deep(rows: seq<Row>, depth: nat) {
    forall k :: 0 <= k < |rows| ==> rows[k].depth >= depth
  }

  predicate StartsAt(rows: seq<Row>, depth: nat) {
    rows != [] ==> rows[0].depth <= depth
  }

  lemma {:induction false} DropBelowJoins(a: seq<Row>, b: seq<Row>, depth: nat, below: nat)
    requires StartsAt(b, depth) && depth <= below
    ensures DropBelow(a + b, below) == DropBelow(a, below) + b
    decreases |a|
  {
    if a == [] {
      assert a + b == b;
    } else {
      assert (a + b)[1..] == a[1..] + b;
      if a[0].depth > below {
        DropBelowJoins(a[1..], b, depth, below);
      }
    }
  }

  lemma {:induction false} DropBelowDeep(rows: seq<Row>, depth: nat, below: nat)
    requires Deep(rows, depth)
    ensures Deep(DropBelow(rows, below), depth)
    ensures below < depth ==> DropBelow(rows, below) == []
    decreases |rows|
  {
    if rows != [] && rows[0].depth > below {
      DropBelowDeep(rows[1..], depth, below);
    }
  }

  lemma {:induction false} LeftJoins(a: seq<Row>, b: seq<Row>, depth: nat, collapsed: set<Path>)
    requires a != [] && Deep(a, depth) && StartsAt(b, depth)
    ensures Left(a + b, collapsed) == Left(a, collapsed) + b && Deep(Left(a, collapsed), depth)
  {
    assert (a + b)[1..] == a[1..] + b;
    DropBelowJoins(a[1..], b, depth, a[0].depth);
    DropBelowDeep(a[1..], depth, a[0].depth);
  }

  lemma {:induction false} CollapseJoins(a: seq<Row>, b: seq<Row>, depth: nat, collapsed: set<Path>)
    requires Deep(a, depth) && StartsAt(b, depth)
    ensures Collapse(a + b, collapsed) == Collapse(a, collapsed) + Collapse(b, collapsed)
    decreases |a|
  {
    if a == [] {
      assert a + b == b;
    } else {
      LeftJoins(a, b, depth, collapsed);
      CollapseJoins(Left(a, collapsed), b, depth, collapsed);
      assert Collapse(a + b, collapsed) == [Closed(a[0], collapsed)] + Collapse(Left(a, collapsed) + b, collapsed);
    }
  }

  lemma {:induction false} FileRowsDepth(v: View, files: seq<File>, depth: nat)
    ensures Deep(FileRows(v, files, depth), depth) && StartsAt(FileRows(v, files, depth), depth)
    ensures forall r :: r in FileRows(v, files, depth) ==> r.file.Some?
  {
    if files != [] {
      FileRowsDepth(v, files[..|files| - 1], depth);
    }
  }

  lemma {:induction false} ShownDepth(v: View, dir: Directory, parent: Path, depth: nat)
    ensures Deep(Shown(v, dir, parent, depth), depth) && StartsAt(Shown(v, dir, parent, depth), depth)
    decreases dir, 1
  {
    ShownDirsDepth(v, dir.dirs, parent, depth);
    FileRowsDepth(v, dir.files, depth);
  }

  lemma {:induction false} ShownDirsDepth(v: View, dirs: Dirs, parent: Path, depth: nat)
    ensures Deep(ShownDirs(v, dirs, parent, depth), depth) && StartsAt(ShownDirs(v, dirs, parent, depth), depth)
    decreases dirs, 0
  {
    if dirs.More? {
      ShownDirDepth(v, dirs.name, dirs.dir, parent, depth);
      ShownDirsDepth(v, dirs.rest, parent, depth);
    }
  }

  lemma {:induction false} ShownDirDepth(v: View, name: Name, dir: Directory, parent: Path, depth: nat)
    ensures var rows := ShownDir(v, name, dir, parent, depth);
      Deep(rows, depth) && rows != [] && rows[0].depth == depth
    decreases dir, 2
  {
    var f := Fold([name], Under(parent, name), dir);
    if !IsSingle(f.node) {
      ShownDepth(v, f.node, f.path, depth + 1);
    }
  }

  lemma {:induction false} CollapseFiles(v: View, files: seq<File>, depth: nat, collapsed: set<Path>)
    ensures Collapse(FileRows(v, files, depth), collapsed) == FileRows(v, files, depth)
  {
    FileRowsDepth(v, files, depth);
    CollapseKeepsFiles(FileRows(v, files, depth), collapsed);
  }

  lemma {:induction false} CollapseKeepsFiles(rows: seq<Row>, collapsed: set<Path>)
    requires forall r :: r in rows ==> r.file.Some?
    ensures Collapse(rows, collapsed) == rows
    decreases |rows|
  {
    if rows != [] {
      assert rows[0] in rows && rows == [rows[0]] + rows[1..];
      CollapseKeepsFiles(rows[1..], collapsed);
    }
  }

  function Open(v: View): View {
    v.(collapsed := {})
  }

  /** Without a query, collapsing folders removes exactly the rows strictly below them. */
  lemma {:induction false} CollapsedIsCut(v: View, dir: Directory, parent: Path, depth: nat)
    requires !v.filtering
    ensures Shown(v, dir, parent, depth) == Collapse(Shown(v.(collapsed := {}), dir, parent, depth), v.collapsed)
    decreases dir, 1
  {
    CollapsedDirsAreCut(v, dir.dirs, parent, depth);
    ShownDirsDepth(Open(v), dir.dirs, parent, depth);
    FileRowsDepth(Open(v), dir.files, depth);
    CollapseJoins(ShownDirs(Open(v), dir.dirs, parent, depth), FileRows(Open(v), dir.files, depth), depth, v.collapsed);
    CollapseFiles(Open(v), dir.files, depth, v.collapsed);
    SameFileRows(v, dir.files, depth);
  }

  lemma {:induction false} SameFileRows(v: View, files: seq<File>, depth: nat)
    ensures FileRows(v, files, depth) == FileRows(Open(v), files, depth)
  {
    if files != [] {
      SameFileRows(v, files[..|files| - 1], depth);
    }
  }

  lemma {:induction false} CollapsedDirsAreCut(v: View, dirs: Dirs, parent: Path, depth: nat)
    requires !v.filtering
    ensures ShownDirs(v, dirs, parent, depth) == Collapse(ShownDirs(Open(v), dirs, parent, depth), v.collapsed)
    decreases dirs, 0
  {
    if dirs.More? {
      CollapsedDirIsCut(v, dirs.name, dirs.dir, parent, depth);
      CollapsedDirsAreCut(v, dirs.rest, parent, depth);
      ShownDirDepth(Open(v), dirs.name, dirs.dir, parent, depth);
      ShownDirsDepth(Open(v), dirs.rest, parent, depth);
      CollapseJoins(ShownDir(Open(v), dirs.name, dirs.dir, parent, depth),
        ShownDirs(Open(v), dirs.rest, parent, depth), depth, v.collapsed);
    }
  }

  lemma {:induction false} CollapsedDirIsCut(v: View, name: Name, dir: Directory, parent: Path, depth: nat)
    requires !v.filtering
    ensures ShownDir(v, name, dir, parent, depth) == Collapse(ShownDir(Open(v), name, dir, parent, depth), v.collapsed)
    decreases dir, 2
  {
    var f := Fold([name], Under(parent, name), dir);
    if IsSingle(f.node) {
      CollapseKeepsFiles([FileRow(v, f.node.files[0], f.title, depth)], v.collapsed);
    } else {
      CollapsedIsCut(v, f.node, f.path, depth + 1);
      BelowFolder(v, f, depth);
      FolderIsCut(v, f, depth, Shown(Open(v), f.node, f.path, depth + 1), Shown(v, f.node, f.path, depth + 1));
    }
  }

  lemma {:induction false} BelowFolder(v: View, f: Folded, depth: nat)
    ensures DropBelow(Shown(Open(v), f.node, f.path, depth + 1), depth) == []
  {
    ShownDepth(Open(v), f.node, f.path, depth + 1);
    DropBelowDeep(Shown(Open(v), f.node, f.path, depth + 1), depth + 1, depth);
  }

  lemma {:induction false} FolderIsCut(v: View, f: Folded, depth: nat, below: seq<Row>, cut: seq<Row>)
    requires !v.filtering && DropBelow(below, depth) == [] && cut == Collapse(below, v.collapsed)
    ensures [FolderRow(v, f, depth)] + (if Expands(v, f.path) then cut else [])
         == Collapse([FolderRow(Open(v), f, depth)] + below, v.collapsed)
  {
    CutAtFolder(FolderRow(Open(v), f, depth), below, v.collapsed);
  }

  lemma {:induction false} CutAtFolder(row: Row, below: seq<Row>, collapsed: set<Path>)
    requires row.file.None? && DropBelow(below, row.depth) == []
    ensures Collapse([row] + below, collapsed)
      == if row.path in collapsed then [row.(expanded := false)] else [row] + Collapse(below, collapsed)
  {
    assert ([row] + below)[1..] == below;
  }

  // ----- paths -----

  /**
   The rows name their files: reading down, `stack[d]` is the path of the folder that the next row
   of depth `d` is in, and a row's path is that followed by its prefix and its title.
   */
  ghost predicate Fits(rows: seq<Row>, stack: seq<Path>)
    decreases |rows|
  {
    rows == [] ||
    var r := rows[0];
      && r.depth < |stack|
      && r.path == (if r.depth == 0 then [] else stack[r.depth]) + r.prefix + r.title
      && Fits(rows[1..], Pushed(stack, r))
  }

  function Pushed(stack: seq<Path>, r: Row): seq<Path>
    requires r.depth < |stack|
  {
    stack[..r.depth + 1] + if r.file.None? then [r.path] else []
  }

  lemma {:induction false} FitsCut(rows: seq<Row>, stack: seq<Path>, depth: nat)
    requires depth < |stack| && StartsAt(rows, depth) && Fits(rows, stack[..depth + 1])
    ensures Fits(rows, stack)
  {
    if rows != [] {
      PushedCut(stack, rows[0], depth);
    }
  }

  lemma {:induction false} PushedCut(stack: seq<Path>, r: Row, depth: nat)
    requires r.depth <= depth < |stack|
    ensures Pushed(stack[..depth + 1], r) == Pushed(stack, r) && stack[..depth + 1][r.depth] == stack[r.depth]
  {
    assert stack[..depth + 1][..r.depth + 1] == stack[..r.depth + 1];
  }

  lemma {:induction false} FitsJoin(a: seq<Row>, b: seq<Row>, stack: seq<Path>, depth: nat)
    requires depth < |stack| && Deep(a, depth) && StartsAt(b, depth)
    requires Fits(a, stack) && Fits(b, stack[..depth + 1])
    ensures Fits(a + b, stack)
    decreases |a|
  {
    if a == [] {
      assert a + b == b;
      FitsCut(b, stack, depth);
    } else {
      assert (a + b)[1..] == a[1..] + b;
      assert Pushed(stack, a[0])[..depth + 1] == stack[..depth + 1];
      FitsJoin(a[1..], b, Pushed(stack, a[0]), depth);
    }
  }

  lemma {:induction false} FitsWhole(a: seq<Row>, b: seq<Row>, c: seq<Row>, stack: seq<Path>, depth: nat)
    requires |stack| == depth + 1 && Deep(a, depth) && StartsAt(b, depth) && c == a + b
    requires Fits(a, stack) && Fits(b, stack)
    ensures Fits(c, stack)
  {
    assert stack[..depth + 1] == stack;
    FitsJoin(a, b, stack, depth);
  }

  /** `at` leads to a folder of this depth, whose row has the path `parent`. */
  ghost predicate Stands(at: Path, parent: Path, depth: nat, stack: seq<Path>) {
    && |stack| == depth + 1
    && if depth == 0 then at == [] && parent == NO_TEXT else at == parent == stack[depth] && at != NO_TEXT && at != []
  }

  lemma {:induction false} FoldFits(title: Path, path: Path, node: Directory)
    requires Good(node, path)
    ensures var f := Fold(title, path, node);
      Good(f.node, f.path) && |f.path| >= |path| && f.path[..|path|] == path && f.title == title + f.path[|path|..]
    decreases node
  {
    if IsChain(node) {
      var name := node.dirs.name;
      FoldFits(title + [name], path + [name], node.dirs.dir);
      var f := Fold(title, path, node);
      assert f.path[..|path|] == f.path[..|path| + 1][..|path|];
      assert f.path[|path|..] == [f.path[|path|]] + f.path[|path| + 1..];
      assert f.path[|path|] == f.path[..|path| + 1][|path|];
    }
  }

  lemma {:induction false} FilesFit(v: View, files: seq<File>, at: Path, parent: Path, depth: nat, stack: seq<Path>)
    requires Stands(at, parent, depth, stack)
    requires forall k :: 0 <= k < |files| ==> files[k].path == at + [files[k].name]
    ensures Fits(FileRows(v, files, depth), stack)
  {
    if files != [] {
      var front, f := files[..|files| - 1], files[|files| - 1];
      FilesFit(v, front, at, parent, depth, stack);
      FileRowsDepth(v, front, depth);
      SingleFits(FileRow(v, f, [], depth), at, parent, depth, stack);
      FitsWhole(FileRows(v, front, depth), [FileRow(v, f, [], depth)], FileRows(v, files, depth), stack, depth);
    }
  }

  predicate NoEmptyName(dirs: Dirs) {
    dirs.End? || (dirs.name != Name("") && NoEmptyName(dirs.rest))
  }

  lemma {:induction false} ShownFits(v: View, dir: Directory, at: Path, parent: Path, depth: nat, stack: seq<Path>)
    requires Good(dir, at) && Stands(at, parent, depth, stack) && (depth == 0 ==> NoEmptyName(dir.dirs))
    ensures Fits(Shown(v, dir, parent, depth), stack)
    decreases dir, 1
  {
    ShownDirsFit(v, dir.dirs, at, parent, depth, stack);
    FilesFit(v, dir.files, at, parent, depth, stack);
    ShownDirsDepth(v, dir.dirs, parent, depth);
    FileRowsDepth(v, dir.files, depth);
    FitsWhole(ShownDirs(v, dir.dirs, parent, depth), FileRows(v, dir.files, depth), Shown(v, dir, parent, depth),
      stack, depth);
  }

  lemma {:induction false} ShownDirsFit(v: View, dirs: Dirs, at: Path, parent: Path, depth: nat, stack: seq<Path>)
    requires GoodDirs(dirs, at) && Stands(at, parent, depth, stack) && (depth == 0 ==> NoEmptyName(dirs))
    ensures Fits(ShownDirs(v, dirs, parent, depth), stack)
    decreases dirs, 0
  {
    if dirs.More? {
      ShownDirFits(v, dirs.name, dirs.dir, at, parent, depth, stack);
      ShownDirsFit(v, dirs.rest, at, parent, depth, stack);
      ShownDirDepth(v, dirs.name, dirs.dir, parent, depth);
      ShownDirsDepth(v, dirs.rest, parent, depth);
      FitsWhole(ShownDir(v, dirs.name, dirs.dir, parent, depth), ShownDirs(v, dirs.rest, parent, depth),
        ShownDirs(v, dirs, parent, depth), stack, depth);
    }
  }

  lemma {:induction false} ShownDirFits(
      v: View, name: Name, dir: Directory, at: Path, parent: Path, depth: nat, stack: seq<Path>)
    requires Good(dir, at + [name]) && Stands(at, parent, depth, stack) && (depth == 0 ==> name != Name(""))
    ensures Fits(ShownDir(v, name, dir, parent, depth), stack)
    decreases dir, 2
  {
    var f := Fold([name], at + [name], dir);
    FoldedFits(name, dir, at, parent, depth, stack);
    if IsSingle(f.node) {
      SingleFileFits(v, f, at, parent, depth, stack);
    } else {
      ShownFits(v, f.node, f.path, f.path, depth + 1, stack + [f.path]);
      FolderShownFits(v, f, at, parent, depth, stack);
    }
  }

  lemma {:induction false} FoldedFits(name: Name, dir: Directory, at: Path, parent: Path, depth: nat, stack: seq<Path>)
    requires Good(dir, at + [name]) && Stands(at, parent, depth, stack) && (depth == 0 ==> name != Name(""))
    ensures var f := Fold([name], at + [name], dir);
      && Under(parent, name) == at + [name]
      && f.path == at + f.title && Good(f.node, f.path) && Stands(f.path, f.path, depth + 1, stack + [f.path])
  {
    var f := Fold([name], at + [name], dir);
    FoldFits([name], at + [name], dir);
    assert f.path == at + f.title;
    FirstName(f.path, at, name);
  }

  lemma {:induction false} SingleFileFits(v: View, f: Folded, at: Path, parent: Path, depth: nat, stack: seq<Path>)
    requires Stands(at, parent, depth, stack) && Good(f.node, f.path) && IsSingle(f.node) && f.path == at + f.title
    ensures Fits([FileRow(v, f.node.files[0], f.title, depth)], stack)
  {
    SingleFits(FileRow(v, f.node.files[0], f.title, depth), at, parent, depth, stack);
  }

  lemma {:induction false} FolderShownFits(v: View, f: Folded, at: Path, parent: Path, depth: nat, stack: seq<Path>)
    requires Stands(at, parent, depth, stack) && f.path == at + f.title
    requires Fits(Shown(v, f.node, f.path, depth + 1), stack + [f.path])
    ensures Fits(FolderShown(v, f, depth), stack)
  {
    FolderFits(v, f, Shown(v, f.node, f.path, depth + 1), at, parent, depth, stack);
    FolderFits(v, f, [], at, parent, depth, stack);
  }

  lemma {:induction false} SingleFits(r: Row, at: Path, parent: Path, depth: nat, stack: seq<Path>)
    requires Stands(at, parent, depth, stack) && r.depth == depth && r.path == at + r.prefix + r.title
    ensures Fits([r], stack)
  {
    assert [r][1..] == [];
  }

  lemma {:induction false} FirstName(path: Path, at: Path, name: Name)
    requires |path| > |at| && path[..|at| + 1] == at + [name] && at != NO_TEXT && (at == [] ==> name != Name(""))
    ensures path != [] && path != NO_TEXT
  {
    if at == [] {
      assert path[0] == path[..1][0] == name;
    }
  }

  lemma {:induction false} FolderFits(
      v: View, f: Folded, below: seq<Row>, at: Path, parent: Path, depth: nat, stack: seq<Path>)
    requires Stands(at, parent, depth, stack) && f.path == at + f.title
    requires Fits(below, stack + [f.path])
    ensures Fits([FolderRow(v, f, depth)] + below, stack)
  {
    var row := FolderRow(v, f, depth);
    assert stack[..depth + 1] == stack;
    assert Pushed(stack, row) == stack + [f.path];
    assert ([row] + below)[1..] == below;
    assert f.path == at + [] + f.title;
  }

  lemma {:induction false} InsertNames(dirs: Dirs, parts: Path, e: Entry)
    requires |parts| > 1 && NoEmptyName(dirs) && parts[0] != Name("")
    ensures NoEmptyName(PutDir(dirs, parts, e))
    decreases dirs
  {
    if dirs.More? && dirs.name != parts[0] && !NameLess(parts[0], dirs.name) {
      InsertNames(dirs.rest, parts, e);
    }
  }

  /** The path text does not start with a slash. */
  predicate IsRelative(e: Entry) {
    |e.path| > 1 ==> e.path[0] != Name("")
  }

  lemma {:induction false} BuildNames(entries: seq<Entry>, matches: Entry -> bool)
    requires forall k :: 0 <= k < |entries| ==> entries[k].path != []
    requires forall k :: 0 <= k < |entries| && matches(entries[k]) ==> IsRelative(entries[k])
    ensures NoEmptyName(Build(entries, matches).dirs)
  {
    if entries != [] {
      var e := entries[|entries| - 1];
      BuildNames(entries[..|entries| - 1], matches);
      if matches(e) && |e.path| > 1 {
        InsertNames(Build(entries[..|entries| - 1], matches).dirs, e.path, e);
      }
    }
  }

  /** For relative paths, every row's path is the titles of the folders above it, its prefix and its title. */
  lemma {:induction false} RowsFit(entries: seq<Entry>, matches: Entry -> bool, v: View)
    requires forall k :: 0 <= k < |entries| ==> entries[k].path != []
    requires forall k :: 0 <= k < |entries| && matches(entries[k]) ==> IsRelative(entries[k])
    ensures Fits(Shown(v, Build(entries, matches), NO_TEXT, 0), [NO_TEXT])
  {
    BuildIsGood(entries, matches);
    BuildNames(entries, matches);
    ShownFits(v, Build(entries, matches), [], NO_TEXT, 0, [NO_TEXT]);
  }

  // ----- a path that starts with a slash -----

  /** Some folder of the list gets a row of its own. */
  predicate HasFolderRow(dirs: Dirs) {
    dirs.More? && (!IsSingle(Fold([dirs.name], [dirs.name], dirs.dir).node) || HasFolderRow(dirs.rest))
  }

  /** The folder before a leading slash is shown open and unfolded, and a folder row is below it. */
  predicate Misread(v: View, root: Directory) {
    && root.dirs.More? && root.dirs.name == Name("")
    && var f := Fold(NO_TEXT, NO_TEXT, root.dirs.dir);
      f.path == NO_TEXT && !IsSingle(f.node) && Expands(v, f.path) && HasFolderRow(f.node.dirs)
  }

  lemma {:induction false} AboveNotEmpty(dirs: Dirs, a: Name)
    requires Above(dirs, a)
    ensures NoEmptyName(dirs)
    decreases dirs
  {
    if dirs.More? {
      AboveNotEmpty(dirs.rest, a);
    }
  }

  lemma {:induction false} FoldNode(title: Path, path: Path, title2: Path, path2: Path, node: Directory)
    ensures Fold(title, path, node).node == Fold(title2, path2, node).node
    ensures title == path ==> Fold(title, path, node).title == Fold(title, path, node).path
    decreases node
  {
    if IsChain(node) {
      var name := node.dirs.name;
      FoldNode(title + [name], path + [name], title2 + [name], path2 + [name], node.dirs.dir);
    }
  }

  const EMPTY_STACK: seq<Path> := [NO_TEXT, NO_TEXT]

  lemma {:induction false} FilesUnderEmptyFit(v: View, files: seq<File>)
    requires forall k :: 0 <= k < |files| ==> files[k].path == NO_TEXT + [files[k].name]
    ensures Fits(FileRows(v, files, 1), EMPTY_STACK)
  {
    if files != [] {
      var front, f := files[..|files| - 1], files[|files| - 1];
      FilesUnderEmptyFit(v, front);
      FileRowsDepth(v, front, 1);
      UnderEmptyFits(FileRow(v, f, [], 1));
      FitsWhole(FileRows(v, front, 1), [FileRow(v, f, [], 1)], FileRows(v, files, 1), EMPTY_STACK, 1);
    }
  }

  lemma {:induction false} UnderEmptyFits(r: Row)
    requires r.depth == 1 && r.path == NO_TEXT + r.prefix + r.title
    ensures Fits([r], EMPTY_STACK)
  {
    assert [r][1..] == [];
  }

  /** Below the empty folder, folders that are folded into their one file still fit. */
  lemma {:induction false} SinglesFit(v: View, dirs: Dirs)
    requires GoodDirs(dirs, NO_TEXT) && !HasFolderRow(dirs)
    ensures Fits(ShownDirs(v, dirs, NO_TEXT, 1), EMPTY_STACK)
    decreases dirs
  {
    if dirs.More? {
      SinglesFit(v, dirs.rest);
      SingleUnderEmpty(v, dirs.name, dirs.dir);
      ShownDirDepth(v, dirs.name, dirs.dir, NO_TEXT, 1);
      ShownDirsDepth(v, dirs.rest, NO_TEXT, 1);
      FitsWhole(ShownDir(v, dirs.name, dirs.dir, NO_TEXT, 1), ShownDirs(v, dirs.rest, NO_TEXT, 1),
        ShownDirs(v, dirs, NO_TEXT, 1), EMPTY_STACK, 1);
    }
  }

  lemma {:induction false} SingleUnderEmpty(v: View, name: Name, dir: Directory)
    requires Good(dir, NO_TEXT + [name]) && IsSingle(Fold([name], [name], dir).node)
    ensures Fits(ShownDir(v, name, dir, NO_TEXT, 1), EMPTY_STACK)
  {
    var f, g := Fold([name], [name], dir), Fold([name], NO_TEXT + [name], dir);
    FoldNode([name], [name], [name], NO_TEXT + [name], dir);
    FoldTitle([name], [name], NO_TEXT + [name], dir);
    FoldFits([name], NO_TEXT + [name], dir);
    assert g.path == NO_TEXT + [name] + g.path[2..] && f.title == [name] + g.path[2..];
    UnderEmptyFits(FileRow(v, f.node.files[0], f.title, 1));
  }

  lemma {:induction false} FoldTitle(title: Path, path: Path, path2: Path, node: Directory)
    ensures Fold(title, path, node).title == Fold(title, path2, node).title
    decreases node
  {
    if IsChain(node) {
      FoldTitle(title + [node.dirs.name], path + [node.dirs.name], path2 + [node.dirs.name], node.dirs.dir);
    }
  }

  lemma {:induction false} EmptyFolderFits(v: View, root: Directory)
    requires Good(root, []) && root.dirs.More? && root.dirs.name == Name("") && !Misread(v, root)
    ensures Fits(ShownDir(v, root.dirs.name, root.dirs.dir, NO_TEXT, 0), [NO_TEXT])
  {
    var f := Fold(NO_TEXT, NO_TEXT, root.dirs.dir);
    assert [] + NO_TEXT == NO_TEXT;
    FoldFits(NO_TEXT, NO_TEXT, root.dirs.dir);
    FoldNode(NO_TEXT, NO_TEXT, NO_TEXT, NO_TEXT, root.dirs.dir);
    assert f.path == [] + f.title;
    if IsSingle(f.node) {
      SingleFileFits(v, f, [], NO_TEXT, 0, [NO_TEXT]);
    } else {
      EmptyFolderShownFits(v, f);
    }
  }

  lemma {:induction false} EmptyFolderShownFits(v: View, f: Folded)
    requires Good(f.node, f.path) && f.path == f.title && f.path != []
    requires f.path == NO_TEXT && Expands(v, f.path) ==> !HasFolderRow(f.node.dirs)
    ensures Fits(FolderShown(v, f, 0), [NO_TEXT])
  {
    assert f.path == [] + f.title;
    if !Expands(v, f.path) {
      FolderFits(v, f, [], [], NO_TEXT, 0, [NO_TEXT]);
    } else if f.path != NO_TEXT {
      ShownFits(v, f.node, f.path, f.path, 1, [NO_TEXT] + [f.path]);
      FolderShownFits(v, f, [], NO_TEXT, 0, [NO_TEXT]);
    } else {
      UnderEmptyFolder(v, f.node);
      EmptyFolderRowFits(v, f, Shown(v, f.node, NO_TEXT, 1));
    }
  }

  lemma {:induction false} EmptyFolderRowFits(v: View, f: Folded, below: seq<Row>)
    requires f.path == f.title == NO_TEXT && Fits(below, EMPTY_STACK)
    ensures Fits([FolderRow(v, f, 0)] + below, [NO_TEXT])
  {
    assert [NO_TEXT] + [f.path] == EMPTY_STACK;
    assert f.path == [] + f.title;
    FolderFits(v, f, below, [], NO_TEXT, 0, [NO_TEXT]);
  }

  lemma {:induction false} UnderEmptyFolder(v: View, node: Directory)
    requires Good(node, NO_TEXT) && !HasFolderRow(node.dirs)
    ensures Fits(Shown(v, node, NO_TEXT, 1), EMPTY_STACK)
  {
    SinglesFit(v, node.dirs);
    FilesUnderEmptyFit(v, node.files);
    ShownDirsDepth(v, node.dirs, NO_TEXT, 1);
    FileRowsDepth(v, node.files, 1);
    FitsWhole(ShownDirs(v, node.dirs, NO_TEXT, 1), FileRows(v, node.files, 1), Shown(v, node, NO_TEXT, 1),
      EMPTY_STACK, 1);
  }

  lemma {:induction false} FitsFront(a: seq<Row>, b: seq<Row>, stack: seq<Path>)
    requires Fits(a + b, stack)
    ensures Fits(a, stack)
    decreases |a|
  {
    if a != [] {
      assert (a + b)[1..] == a[1..] + b;
      FitsFront(a[1..], b, Pushed(stack, a[0]));
    }
  }

  /** A folder row below the empty folder lacks the slash, as its parent's path is empty. */
  lemma {:induction false} FolderRowMisses(v: View, dirs: Dirs)
    requires HasFolderRow(dirs)
    ensures !Fits(ShownDirs(v, dirs, NO_TEXT, 1), EMPTY_STACK)
    decreases dirs
  {
    var rows := ShownDirs(v, dirs, NO_TEXT, 1);
    var f := Fold([dirs.name], [dirs.name], dirs.dir);
    if IsSingle(f.node) {
      FolderRowMisses(v, dirs.rest);
      assert rows[1..] == ShownDirs(v, dirs.rest, NO_TEXT, 1);
      assert Pushed(EMPTY_STACK, rows[0]) == EMPTY_STACK;
    } else {
      FoldNode([dirs.name], [dirs.name], [dirs.name], [dirs.name], dirs.dir);
      assert ShownDir(v, dirs.name, dirs.dir, NO_TEXT, 1) == FolderShown(v, f, 1);
      assert rows == FolderShown(v, f, 1) + ShownDirs(v, dirs.rest, NO_TEXT, 1);
      assert rows[0] == FolderRow(v, f, 1);
      assert |EMPTY_STACK[1] + rows[0].prefix + rows[0].title| == |rows[0].path| + 1;
    }
  }

  lemma {:induction false} MisreadMisses(v: View, root: Directory)
    requires Misread(v, root)
    ensures !Fits(Shown(v, root, NO_TEXT, 0), [NO_TEXT])
  {
    var f := Fold(NO_TEXT, NO_TEXT, root.dirs.dir);
    FolderRowMisses(v, f.node.dirs);
    var first, below := FolderShown(v, f, 0), Shown(v, f.node, NO_TEXT, 1);
    if Fits(Shown(v, root, NO_TEXT, 0), [NO_TEXT]) {
      FitsFront(ShownDirs(v, root.dirs, NO_TEXT, 0), FileRows(v, root.files, 0), [NO_TEXT]);
      assert first == ShownDir(v, root.dirs.name, root.dirs.dir, NO_TEXT, 0);
      assert ShownDirs(v, root.dirs, NO_TEXT, 0) == first + ShownDirs(v, root.dirs.rest, NO_TEXT, 0);
      FitsFront(first, ShownDirs(v, root.dirs.rest, NO_TEXT, 0), [NO_TEXT]);
      assert first[1..] == below && Pushed([NO_TEXT], first[0]) == EMPTY_STACK;
      FitsFront(ShownDirs(v, f.node.dirs, NO_TEXT, 1), FileRows(v, f.node.files, 1), EMPTY_STACK);
    }
  }

  lemma {:induction false} TreeFits(v: View, root: Directory)
    requires Good(root, [])
    ensures Fits(Shown(v, root, NO_TEXT, 0), [NO_TEXT]) <==> !Misread(v, root)
  {
    if Misread(v, root) {
      MisreadMisses(v, root);
    } else if root.dirs.End? {
      ShownFits(v, root, [], NO_TEXT, 0, [NO_TEXT]);
    } else {
      AboveNotEmpty(root.dirs.rest, root.dirs.name);
      if root.dirs.name == Name("") {
        EmptyFolderFits(v, root);
        RestFits(v, root);
      } else {
        ShownFits(v, root, [], NO_TEXT, 0, [NO_TEXT]);
      }
    }
  }

  lemma {:induction false} RestFits(v: View, root: Directory)
    requires Good(root, []) && root.dirs.More? && NoEmptyName(root.dirs.rest)
    requires Fits(ShownDir(v, root.dirs.name, root.dirs.dir, NO_TEXT, 0), [NO_TEXT])
    ensures Fits(Shown(v, root, NO_TEXT, 0), [NO_TEXT])
  {
    var first, rest := ShownDir(v, root.dirs.name, root.dirs.dir, NO_TEXT, 0), ShownDirs(v, root.dirs.rest, NO_TEXT, 0);
    ShownDirsFit(v, root.dirs.rest, [], NO_TEXT, 0, [NO_TEXT]);
    FilesFit(v, root.files, [], NO_TEXT, 0, [NO_TEXT]);
    ShownDirDepth(v, root.dirs.name, root.dirs.dir, NO_TEXT, 0);
    ShownDirsDepth(v, root.dirs.rest, NO_TEXT, 0);
    FileRowsDepth(v, root.files, 0);
    FitsWhole(first, rest, ShownDirs(v, root.dirs, NO_TEXT, 0), [NO_TEXT], 0);
    ShownDirsDepth(v, root.dirs, NO_TEXT, 0);
    FitsWhole(ShownDirs(v, root.dirs, NO_TEXT, 0), FileRows(v, root.files, 0), Shown(v, root, NO_TEXT, 0),
      [NO_TEXT], 0);
  }

  // The same condition on the entries.

  /** The path is strictly below `at`. */
  predicate Below(e: Entry, at: Path) {
    |e.path| > |at| && e.path[..|at|] == at
  }

  ghost predicate TwoBelow(shown: set<Entry>, at: Path) {
    exists e, f :: e in shown && f in shown && e != f && Below(e, at) && Below(f, at)
  }

  ghost predicate OneBeside(shown: set<Entry>, a: Name) {
    exists e :: e in shown && Below(e, NO_TEXT) && !Below(e, [Name(""), a])
  }

  /**
   The folder "" is open, some folder "/a" has two entries and so a row of its own, and another
   entry that starts with a slash keeps the two folders from being folded into one.
   */
  ghost predicate SlashMisread(v: View, shown: set<Entry>) {
    Expands(v, NO_TEXT) && exists a :: TwoBelow(shown, [Name(""), a]) && OneBeside(shown, a)
  }

  /** No folder is without files. */
  predicate Full(dirs: Dirs) {
    dirs.End? || (Listed(dirs.dir) != [] && Full(dirs.dir.dirs) && Full(dirs.rest))
  }

  lemma {:induction false} InsertIsFull(dir: Directory, parts: Path, e: Entry)
    requires parts != [] && Full(dir.dirs)
    ensures Full(Insert(dir, parts, e).dirs) && Listed(Insert(dir, parts, e)) != []
    decreases |parts|, 1, dir
  {
    if |parts| > 1 {
      PutDirIsFull(dir.dirs, parts, e);
    }
  }

  lemma {:induction false} PutDirIsFull(dirs: Dirs, parts: Path, e: Entry)
    requires |parts| > 1 && Full(dirs)
    ensures Full(PutDir(dirs, parts, e)) && ListedDirs(PutDir(dirs, parts, e)) != []
    decreases |parts|, 0, dirs
  {
    if dirs.End? || NameLess(parts[0], dirs.name) {
      InsertIsFull(EMPTY, parts[1..], e);
    } else if dirs.name == parts[0] {
      InsertIsFull(dirs.dir, parts[1..], e);
    } else {
      PutDirIsFull(dirs.rest, parts, e);
    }
  }

  lemma {:induction false} BuildIsFull(entries: seq<Entry>, matches: Entry -> bool)
    requires forall k :: 0 <= k < |entries| ==> entries[k].path != []
    ensures Full(Build(entries, matches).dirs)
  {
    if entries != [] {
      var e := entries[|entries| - 1];
      BuildIsFull(entries[..|entries| - 1], matches);
      InsertIsFull(Build(entries[..|entries| - 1], matches), e.path, e);
    }
  }

  lemma {:induction false} FoldEnds(title: Path, path: Path, node: Directory)
    requires Full(node.dirs)
    ensures var f := Fold(title, path, node);
      !IsChain(f.node) && Full(f.node.dirs) && (f.path == path ==> f.node == node) && |f.path| >= |path|
    ensures !IsChain(node) <==> Fold(title, path, node).path == path
    decreases node
  {
    if IsChain(node) {
      FoldEnds(title + [node.dirs.name], path + [node.dirs.name], node.dirs.dir);
    }
  }

  /** A folder is shown as its file exactly if it has one. */
  lemma {:induction false} SingleIsOne(title: Path, path: Path, node: Directory)
    requires Full(node.dirs)
    ensures IsSingle(Fold(title, path, node).node) <==> |Listed(node)| == 1
  {
    var f := Fold(title, path, node).node;
    FoldKeepsListed(title, path, node);
    FoldEnds(title, path, node);
    if f.dirs.More? && f.dirs.rest.More? {
      assert |ListedDirs(f.dirs)| >= |Listed(f.dirs.dir)| + |Listed(f.dirs.rest.dir)|;
    }
  }

  lemma {:induction false} FolderRowHasTwo(dirs: Dirs, at: Path) returns (a: Name, e: Entry, f: Entry)
    requires GoodDirs(dirs, at) && Full(dirs) && HasFolderRow(dirs)
    ensures e in ListedDirs(dirs) && f in ListedDirs(dirs) && e != f && Below(e, at + [a]) && Below(f, at + [a])
    decreases dirs
  {
    SingleIsOne([dirs.name], [dirs.name], dirs.dir);
    var listed := Listed(dirs.dir);
    if |listed| > 1 {
      a, e, f := dirs.name, listed[0], listed[1];
      ListedDistinct(dirs.dir, at + [a]);
      ListedBelow(dirs.dir, at + [a], e);
      ListedBelow(dirs.dir, at + [a], f);
    } else {
      a, e, f := FolderRowHasTwo(dirs.rest, at);
    }
  }

  /** What is listed below `dirs` is in the folder its path names. */
  lemma {:induction false} InItsFolder(dirs: Dirs, at: Path, a: Name, e: Entry)
    requires dirs.More? && GoodDirs(dirs, at) && e in ListedDirs(dirs) && Below(e, at + [a])
    ensures dirs.name == a <==> e in Listed(dirs.dir)
  {
    assert e.path[|at|] == e.path[..|at| + 1][|at|] == a;
    if e in Listed(dirs.dir) {
      ListedBelow(dirs.dir, at + [dirs.name], e);
    } else {
      ListedBelowDirs(dirs.rest, at, e);
      AboveAll(dirs.rest, dirs.name, a);
      LessIsTotal(dirs.name.text, a.text);
    }
  }

  lemma {:induction false} TwoMakeFolderRow(dirs: Dirs, at: Path, a: Name, e: Entry, f: Entry)
    requires GoodDirs(dirs, at) && Full(dirs)
    requires e in ListedDirs(dirs) && f in ListedDirs(dirs) && e != f && Below(e, at + [a]) && Below(f, at + [a])
    ensures HasFolderRow(dirs)
    decreases dirs
  {
    InItsFolder(dirs, at, a, e);
    InItsFolder(dirs, at, a, f);
    if dirs.name == a {
      SingleIsOne([dirs.name], [dirs.name], dirs.dir);
    } else {
      TwoMakeFolderRow(dirs.rest, at, a, e, f);
    }
  }

  lemma {:induction false} FolderHolds(dirs: Dirs, at: Path) returns (e: Entry)
    requires dirs.More? && GoodDirs(dirs, at) && Full(dirs)
    ensures e in ListedDirs(dirs) && Below(e, at) && |e.path| > |at| + 1 && e.path[|at|] == dirs.name
  {
    e := Listed(dirs.dir)[0];
    ListedBelow(dirs.dir, at + [dirs.name], e);
    assert e.path[..|at|] == e.path[..|at| + 1][..|at|];
    assert e.path[|at|] == e.path[..|at| + 1][|at|];
  }

  /** A folder that is not folded into its subfolder has a file elsewhere. */
  lemma {:induction false} UnfoldedHasOther(node: Directory, at: Path, a: Name) returns (e: Entry)
    requires Good(node, at) && Full(node.dirs) && node.dirs.More? && !IsChain(node)
    ensures e in Listed(node) && Below(e, at) && !Below(e, at + [a])
  {
    if node.files != [] {
      e := EntriesOf(node.files)[0];
      EntriesOfHolds(node.files, e);
    } else {
      e := FolderHolds(node.dirs, at);
      if node.dirs.name == a {
        assert GoodDirs(node.dirs.rest, at);
        e := FolderHolds(node.dirs.rest, at);
        AboveAll(node.dirs.rest, a, node.dirs.rest.name);
        LessIsTotal(a.text, node.dirs.rest.name.text);
      }
      assert (at + [a])[|at|] == a;
    }
  }

  lemma {:induction false} ChainHoldsAll(node: Directory, at: Path, e: Entry)
    requires Good(node, at) && IsChain(node) && e in Listed(node)
    ensures Below(e, at + [node.dirs.name]) && e.path[|at|] == node.dirs.name
  {
    assert ListedDirs(node.dirs.rest) == [] && EntriesOf(node.files) == [];
    ListedBelow(node.dirs.dir, at + [node.dirs.name], e);
    assert e.path[|at|] == e.path[..|at| + 1][|at|];
  }

  lemma {:induction false} OtherUnfolds(node: Directory, at: Path, a: Name, e: Entry, g: Entry)
    requires Good(node, at) && e in Listed(node) && Below(e, at + [a])
    requires g in Listed(node) && Below(g, at) && !Below(g, at + [a])
    ensures !IsChain(node)
  {
    assert e.path[|at|] == e.path[..|at| + 1][|at|] == a;
    if IsChain(node) {
      ChainHoldsAll(node, at, e);
      ChainHoldsAll(node, at, g);
    }
  }

  /** What starts with a slash is listed in the folder "". */
  lemma {:induction false} SlashedIsInEmpty(root: Directory, e: Entry)
    requires Good(root, []) && e in Listed(root) && Below(e, NO_TEXT)
    ensures root.dirs.More? && root.dirs.name == Name("") && e in Listed(root.dirs.dir)
  {
    assert [] + NO_TEXT == NO_TEXT;
    if e in EntriesOf(root.files) {
      EntriesOfHolds(root.files, e);
    } else {
      EmptyIsFirst(root.dirs, e);
      InItsFolder(root.dirs, [], Name(""), e);
    }
  }

  lemma {:induction false} EmptyIsFirst(dirs: Dirs, e: Entry)
    requires GoodDirs(dirs, []) && e in ListedDirs(dirs) && Below(e, NO_TEXT)
    ensures dirs.More? && dirs.name == Name("")
  {
    ListedBelowDirs(dirs, [], e);
    assert e.path[0] == e.path[..1][0] == Name("");
    if dirs.name != Name("") {
      AboveAll(dirs.rest, dirs.name, Name(""));
    }
  }

  lemma {:induction false} MisreadHasEntries(v: View, root: Directory)
    requires Good(root, []) && Full(root.dirs) && Misread(v, root)
    ensures SlashMisread(v, set e | e in Listed(root))
  {
    var node := root.dirs.dir;
    assert Good(node, NO_TEXT) by {
      assert [] + NO_TEXT == NO_TEXT;
    }
    FoldEnds(NO_TEXT, NO_TEXT, node);
    var a, e, f := FolderRowHasTwo(node.dirs, NO_TEXT);
    var g := UnfoldedHasOther(node, NO_TEXT, a);
    assert NO_TEXT + [a] == [Name(""), a];
    var shown := set e | e in Listed(root);
    assert Listed(root) == Listed(node) + ListedDirs(root.dirs.rest) + EntriesOf(root.files);
    assert e in Listed(node) && f in Listed(node) && g in Listed(node);
    assert TwoBelow(shown, [Name(""), a]) && OneBeside(shown, a);
  }

  lemma {:induction false} BelowBoth(e: Entry, a: Name)
    requires Below(e, [Name(""), a])
    ensures Below(e, NO_TEXT) && Below(e, NO_TEXT + [a])
  {
    assert e.path[..1] == e.path[..2][..1];
    assert NO_TEXT + [a] == [Name(""), a];
  }

  lemma {:induction false} EntriesMisread(v: View, root: Directory, a: Name, e: Entry, f: Entry, g: Entry)
    requires Good(root, []) && Full(root.dirs) && Expands(v, NO_TEXT)
    requires e in Listed(root) && f in Listed(root) && e != f && Below(e, [Name(""), a]) && Below(f, [Name(""), a])
    requires g in Listed(root) && Below(g, NO_TEXT) && !Below(g, [Name(""), a])
    ensures Misread(v, root)
  {
    BelowBoth(e, a);
    BelowBoth(f, a);
    SlashedIsInEmpty(root, e);
    SlashedIsInEmpty(root, f);
    SlashedIsInEmpty(root, g);
    var node := root.dirs.dir;
    assert [] + NO_TEXT == NO_TEXT && NO_TEXT + [a] == [Name(""), a];
    OtherUnfolds(node, NO_TEXT, a, e, g);
    FoldEnds(NO_TEXT, NO_TEXT, node);
    InSubfolder(node, NO_TEXT, a, e);
    InSubfolder(node, NO_TEXT, a, f);
    TwoMakeFolderRow(node.dirs, NO_TEXT, a, e, f);
  }

  lemma {:induction false} InSubfolder(node: Directory, at: Path, a: Name, e: Entry)
    requires Good(node, at) && e in Listed(node) && Below(e, at + [a])
    ensures e in ListedDirs(node.dirs)
  {
    if e in EntriesOf(node.files) {
      EntriesOfHolds(node.files, e);
    }
  }

  function Matching(entries: seq<Entry>, matches: Entry -> bool): set<Entry> {
    set e | e in entries && matches(e)
  }

  /** The rows name their files exactly when the matching entries are not of that kind. */
  lemma {:induction false} RowsFitExactly(entries: seq<Entry>, matches: Entry -> bool, v: View)
    requires forall k :: 0 <= k < |entries| ==> entries[k].path != []
    ensures Fits(Shown(v, Build(entries, matches), NO_TEXT, 0), [NO_TEXT])
      <==> !SlashMisread(v, Matching(entries, matches))
  {
    var root, shown := Build(entries, matches), Matching(entries, matches);
    BuildIsGood(entries, matches);
    BuildIsFull(entries, matches);
    TreeFits(v, root);
    forall e ensures e in Listed(root) <==> e in shown {
      BuildHolds(entries, matches, e);
    }
    assert shown == set e | e in Listed(root);
    if Misread(v, root) {
      MisreadHasEntries(v, root);
    }
    if SlashMisread(v, shown) {
      var a :| TwoBelow(shown, [Name(""), a]) && OneBeside(shown, a);
      var e, f :| e in shown && f in shown && e != f && Below(e, [Name(""), a]) && Below(f, [Name(""), a]);
      var g :| g in shown && Below(g, NO_TEXT) && !Below(g, [Name(""), a]);
      EntriesMisread(v, root, a, e, f, g);
    }
  }

  function Any(e: Entry): bool {
    true
  }

  /** The entries "/a/x", "/a/y" and "/c". */
  function Slashed(x: FileId, y: FileId, c: FileId): seq<Entry> {
    [Entry(x, [Name(""), Name("a"), Name("x")]), Entry(y, [Name(""), Name("a"), Name("y")]),
      Entry(c, [Name(""), Name("c")])]
  }

  /** An input that fails: the row of the folder "/a" has the path "a". */
  lemma {:induction false} LeadingSlashIsMisread(v: View, x: FileId, y: FileId, c: FileId)
    requires AllExpanded(v)
    ensures !Fits(Shown(v, Build(Slashed(x, y, c), Any), NO_TEXT, 0), [NO_TEXT])
  {
    var es := Slashed(x, y, c);
    var shown := Matching(es, Any);
    assert es[0] in shown && es[1] in shown && es[2] in shown;
    assert es[0].path[2] != es[1].path[2] && es[2].path[1] != Name("a");
    assert Below(es[0], [Name(""), Name("a")]) && Below(es[1], [Name(""), Name("a")]);
    assert OneBeside(shown, Name("a"));
    RowsFitExactly(es, Any, v);
  }
}
