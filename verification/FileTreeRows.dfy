/**
 The rows of the tree by the entries they stand for (crates/core/src/file_tree.rs):
 their order, the folders that have a row, how deep each row is, and the rest of
 what a row says.
 */
module FileTreeRows {
  import opened Wrappers
  import opened FileTree

  // ----- the order of names -----

  /** `a` ends first, or at the first difference it has the smaller character. */
  ghost predicate IsLess(a: string, b: string) {
    exists k: nat :: IsFirstDifference(a, b, k)
  }

  ghost predicate IsFirstDifference(a: string, b: string, k: nat) {
    && k <= |a| && k < |b| && a[..k] == b[..k]
    && (k < |a| ==> a[k] < b[k])
  }

  lemma {:induction false} LessExactly(a: string, b: string)
    ensures Less(a, b) <==> IsLess(a, b)
  {
    forall k: nat | IsFirstDifference(a, b, k) && k > 0 ensures a[0] == b[0] {
      assert a[..k][0] == b[..k][0];
    }
    if a != "" && b != "" && a[0] == b[0] {
      LessExactly(a[1..], b[1..]);
      if k: nat :| IsFirstDifference(a[1..], b[1..], k) {
        assert a[..k + 1] == [a[0]] + a[1..][..k] && b[..k + 1] == [b[0]] + b[1..][..k];
        assert IsFirstDifference(a, b, k + 1);
      }
      if k: nat :| IsFirstDifference(a, b, k) {
        assert k > 0;
        assert a[1..][..k - 1] == a[..k][1..] && b[1..][..k - 1] == b[..k][1..];
        assert IsFirstDifference(a[1..], b[1..], k - 1);
      }
    } else {
      if b != "" && (a == "" || a[0] < b[0]) {
        assert IsFirstDifference(a, b, 0);
      }
    }
  }

  // ----- the order of the rows -----

  /** Folders come before files, both by name; files of one name by id. */
  ghost predicate Precedes(a: Entry, b: Entry, at: nat)
    requires at < |a.path| && at < |b.path|
    decreases |a.path| - at
  {
    var m, n := a.path[at].text, b.path[at].text;
    if at + 1 == |a.path| then at + 1 == |b.path| && (IsLess(m, n) || (m == n && IsLess(a.id.text, b.id.text)))
    else at + 1 == |b.path| || IsLess(m, n) || (m == n && Precedes(a, b, at + 1))
  }

  ghost predicate Ordered(s: seq<Entry>, at: nat) {
    && (forall i :: 0 <= i < |s| ==> |s[i].path| > at)
    && forall i, j :: 0 <= i < j < |s| ==> |s[i].path| > at && |s[j].path| > at && Precedes(s[i], s[j], at)
  }

  lemma {:induction false} OrderedJoin(a: seq<Entry>, b: seq<Entry>, at: nat)
    requires Ordered(a, at) && Ordered(b, at)
    requires forall x, y :: x in a && y in b ==> |x.path| > at && |y.path| > at && Precedes(x, y, at)
    ensures Ordered(a + b, at)
  {
    var s := a + b;
    forall i, j | 0 <= i < j < |s| ensures |s[i].path| > at && |s[j].path| > at && Precedes(s[i], s[j], at) {
      if i < |a| <= j {
        assert a[i] in a && b[j - |a|] in b;
      }
    }
  }

  lemma {:induction false} FilesAreOrdered(files: seq<File>, at: Path)
    requires SortedFiles(files) && forall k :: 0 <= k < |files| ==> files[k].path == at + [files[k].name]
    ensures Ordered(EntriesOf(files), |at|)
  {
    var s := EntriesOf(files);
    forall i, j | 0 <= i < j < |s| ensures |s[i].path| > |at| && |s[j].path| > |at| && Precedes(s[i], s[j], |at|) {
      LessExactly(files[i].name.text, files[j].name.text);
      LessExactly(files[i].id.text, files[j].id.text);
      assert FileLess(files[i], files[j]);
    }
  }

  lemma {:induction false} ListedIsOrdered(dir: Directory, at: Path)
    requires Good(dir, at)
    ensures Ordered(Listed(dir), |at|)
    decreases dir, 1
  {
    FilesAreOrdered(dir.files, at);
    ListedDirsAreOrdered(dir.dirs, at);
    forall x, y | x in ListedDirs(dir.dirs) && y in EntriesOf(dir.files)
      ensures |x.path| > |at| && |y.path| > |at| && Precedes(x, y, |at|)
    {
      ListedBelowDirs(dir.dirs, at, x);
      EntriesOfHolds(dir.files, y);
    }
    OrderedJoin(ListedDirs(dir.dirs), EntriesOf(dir.files), |at|);
  }

  lemma {:induction false} ListedDirsAreOrdered(dirs: Dirs, at: Path)
    requires GoodDirs(dirs, at)
    ensures Ordered(ListedDirs(dirs), |at|)
    decreases dirs, 0
  {
    if dirs.More? {
      var here := Listed(dirs.dir);
      ListedIsOrdered(dirs.dir, at + [dirs.name]);
      ListedDirsAreOrdered(dirs.rest, at);
      forall x | x in here ensures |x.path| > |at| + 1 && x.path[|at|] == dirs.name {
        ListedBelow(dirs.dir, at + [dirs.name], x);
        assert x.path[|at|] == x.path[..|at| + 1][|at|];
      }
      forall i, j | 0 <= i < j < |here| ensures Precedes(here[i], here[j], |at|) {
        assert here[i] in here && here[j] in here;
        assert Precedes(here[i], here[j], |at| + 1);
      }
      forall x, y | x in here && y in ListedDirs(dirs.rest)
        ensures |x.path| > |at| && |y.path| > |at| && Precedes(x, y, |at|)
      {
        ListedBelowDirs(dirs.rest, at, y);
        AboveAll(dirs.rest, dirs.name, y.path[|at|]);
        LessExactly(dirs.name.text, y.path[|at|].text);
      }
      OrderedJoin(here, ListedDirs(dirs.rest), |at|);
    }
  }

  /** With every folder open, the file rows come in that order. */
  lemma {:induction false} RowsAreOrdered(entries: seq<Entry>, matches: Entry -> bool, v: View)
    requires forall k :: 0 <= k < |entries| ==> entries[k].path != []
    requires AllExpanded(v)
    ensures Ordered(RowEntries(Shown(v, Build(entries, matches), NO_TEXT, 0)), 0)
  {
    ShownFiles(v, Build(entries, matches), NO_TEXT, 0);
    BuildIsGood(entries, matches);
    ListedIsOrdered(Build(entries, matches), []);
  }

  // ----- what else a row says -----

  /** A file's row has its name and where it was before; a folder's is open unless it is collapsed without a query. */
  ghost predicate IsRow(v: View, r: Row) {
    if r.file.Some? then
      && |r.title| == 1 && !r.expanded
      && r.previous == if r.file.value in v.renamed then Some(v.renamed[r.file.value]) else None
    else r.prefix == [] && r.previous == None && r.expanded == (v.filtering || r.path !in v.collapsed)
  }

  lemma {:induction false} FileRowsAreRows(v: View, files: seq<File>, depth: nat)
    ensures forall r :: r in FileRows(v, files, depth) ==> IsRow(v, r)
  {
    if files != [] {
      FileRowsAreRows(v, files[..|files| - 1], depth);
    }
  }

  lemma {:induction false} ShownAreRows(v: View, dir: Directory, parent: Path, depth: nat)
    ensures forall r :: r in Shown(v, dir, parent, depth) ==> IsRow(v, r)
    decreases dir, 1
  {
    ShownDirsAreRows(v, dir.dirs, parent, depth);
    FileRowsAreRows(v, dir.files, depth);
  }

  lemma {:induction false} ShownDirsAreRows(v: View, dirs: Dirs, parent: Path, depth: nat)
    ensures forall r :: r in ShownDirs(v, dirs, parent, depth) ==> IsRow(v, r)
    decreases dirs, 0
  {
    if dirs.More? {
      ShownDirAreRows(v, dirs.name, dirs.dir, parent, depth);
      ShownDirsAreRows(v, dirs.rest, parent, depth);
    }
  }

  lemma {:induction false} ShownDirAreRows(v: View, name: Name, dir: Directory, parent: Path, depth: nat)
    ensures forall r :: r in ShownDir(v, name, dir, parent, depth) ==> IsRow(v, r)
    decreases dir, 2
  {
    var f := Fold([name], Under(parent, name), dir);
    if !IsSingle(f.node) {
      ShownAreRows(v, f.node, f.path, depth + 1);
    }
  }

  /** With a query nothing is hidden, whatever is collapsed. */
  lemma {:induction false} QueryShowsAll(v: View, dir: Directory, parent: Path, depth: nat)
    requires v.filtering
    ensures Shown(v, dir, parent, depth) == Shown(v.(collapsed := {}), dir, parent, depth)
    decreases dir, 1
  {
    SameFileRows(v, dir.files, depth);
    QueryShowsDirs(v, dir.dirs, parent, depth);
  }

  lemma {:induction false} QueryShowsDirs(v: View, dirs: Dirs, parent: Path, depth: nat)
    requires v.filtering
    ensures ShownDirs(v, dirs, parent, depth) == ShownDirs(Open(v), dirs, parent, depth)
    decreases dirs, 0
  {
    if dirs.More? {
      QueryShowsDir(v, dirs.name, dirs.dir, parent, depth);
      QueryShowsDirs(v, dirs.rest, parent, depth);
    }
  }

  lemma {:induction false} QueryShowsDir(v: View, name: Name, dir: Directory, parent: Path, depth: nat)
    requires v.filtering
    ensures ShownDir(v, name, dir, parent, depth) == ShownDir(Open(v), name, dir, parent, depth)
    decreases dir, 2
  {
    var f := Fold([name], Under(parent, name), dir);
    if !IsSingle(f.node) {
      QueryShowsAll(v, f.node, f.path, depth + 1);
    }
  }

  // ----- which folders have a row, and how deep -----

  ghost predicate Elsewhere(shown: set<Entry>, d: Path, a: Name) {
    exists e :: e in shown && Below(e, d) && !Below(e, d + [a])
  }

  /** More than one entry is below the folder, and not all of them in one of its subfolders. */
  ghost predicate Branches(shown: set<Entry>, d: Path) {
    TwoBelow(shown, d) && forall a :: Elsewhere(shown, d, a)
  }

  /** How many of the folders from `path[..k]` on down to `path` branch. */
  ghost function Branching(shown: set<Entry>, path: Path, k: nat): nat
    decreases |path| - k
  {
    if k >= |path| then 0 else (if Branches(shown, path[..k]) then 1 else 0) + Branching(shown, path, k + 1)
  }

  ghost predicate HasFolder(rows: seq<Row>, d: Path) {
    exists r :: r in rows && r.file.None? && r.path == d
  }

  predicate IsIn(path: Path, at: Path) {
    |path| >= |at| && path[..|at|] == at
  }

  function Entries(s: seq<Entry>): set<Entry> {
    set e | e in s
  }

  /** The rows of the folders at or below `at`, which is `depth` deep. */
  ghost predicate Stand(rows: seq<Row>, shown: set<Entry>, at: Path, depth: nat) {
    && (forall r :: r in rows ==> IsIn(r.path, at) && r.depth == depth + Branching(shown, r.path, |at|))
    && (forall d :: HasFolder(rows, d) <==> IsIn(d, at) && Branches(shown, d))
  }

  /** The rows of the folders strictly below `at`. */
  ghost predicate StandBelow(rows: seq<Row>, shown: set<Entry>, at: Path, depth: nat) {
    && (forall r :: r in rows ==>
          IsIn(r.path, at) && |r.path| > |at| && r.depth == depth + Branching(shown, r.path, |at| + 1))
    && (forall d :: HasFolder(rows, d) <==> IsIn(d, at) && |d| > |at| && Branches(shown, d))
  }

  /** Only entries below a folder say whether it branches. */
  lemma {:induction false} SameBelow(s: set<Entry>, t: set<Entry>, d: Path)
    requires forall e :: Below(e, d) ==> (e in s <==> e in t)
    ensures Branches(s, d) <==> Branches(t, d)
  {
    assert TwoBelow(s, d) <==> TwoBelow(t, d);
    forall a ensures Elsewhere(s, d, a) <==> Elsewhere(t, d, a) {}
  }

  lemma {:induction false} SameBranching(s: set<Entry>, t: set<Entry>, path: Path, k: nat)
    requires forall j :: k <= j < |path| ==> (Branches(s, path[..j]) <==> Branches(t, path[..j]))
    ensures Branching(s, path, k) == Branching(t, path, k)
    decreases |path| - k
  {
    if k < |path| {
      SameBranching(s, t, path, k + 1);
    }
  }

  lemma {:induction false} NoBranching(s: set<Entry>, path: Path, k: nat, n: nat)
    requires k <= n <= |path| && forall j :: k <= j < n ==> !Branches(s, path[..j])
    ensures Branching(s, path, k) == Branching(s, path, n)
    decreases n - k
  {
    if k < n {
      NoBranching(s, path, k + 1, n);
    }
  }

  /** Rows that stand for some entries stand for more, if the others are elsewhere. */
  lemma {:induction false} StandForMore(
      rows: seq<Row>, s: set<Entry>, t: set<Entry>, at: Path, name: Name, depth: nat, r: Row)
    requires Stand(rows, s, at + [name], depth) && r in rows
    requires forall e :: Below(e, at + [name]) ==> (e in s <==> e in t)
    ensures IsIn(r.path, at) && |r.path| > |at| && r.depth == depth + Branching(t, r.path, |at| + 1)
  {
    InParent(r.path, at, name);
    forall j | |at| + 1 <= j < |r.path| ensures Branches(s, r.path[..j]) <==> Branches(t, r.path[..j]) {
      forall e | Below(e, r.path[..j]) ensures e in s <==> e in t {
        BelowPrefix(e, r.path[..j], at + [name]);
      }
      SameBelow(s, t, r.path[..j]);
    }
    SameBranching(s, t, r.path, |at| + 1);
  }

  lemma {:induction false} InParent(path: Path, at: Path, name: Name)
    ensures IsIn(path, at + [name]) <==> IsIn(path, at) && |path| > |at| && path[|at|] == name
  {
    if |path| > |at| {
      assert path[..|at| + 1] == path[..|at|] + [path[|at|]];
    }
  }

  lemma {:induction false} BelowPrefix(e: Entry, d: Path, at: Path)
    requires Below(e, d) && IsIn(d, at)
    ensures Below(e, at)
  {
    assert e.path[..|at|] == e.path[..|d|][..|at|];
  }

  predicate AreIn(s: set<Entry>, at: Path) {
    forall e :: e in s ==> Below(e, at)
  }

  predicate Beside(path: Path, at: Path, name: Name) {
    IsIn(path, at) && |path| > |at| && path[|at|] != name
  }

  /** The rows of one subfolder and of those after it. */
  lemma {:induction false} StandJoin(
      a: seq<Row>, b: seq<Row>, s: set<Entry>, t: set<Entry>, at: Path, name: Name, depth: nat)
    requires Stand(a, s, at + [name], depth) && StandBelow(b, t, at, depth)
    requires AreIn(s, at + [name]) && forall e :: e in t ==> Beside(e.path, at, name)
    requires forall r :: r in b ==> Beside(r.path, at, name)
    ensures StandBelow(a + b, s + t, at, depth)
  {
    forall r | r in a + b
      ensures IsIn(r.path, at) && |r.path| > |at| && r.depth == depth + Branching(s + t, r.path, |at| + 1)
    {
      if r in a {
        forall e | Below(e, at + [name]) ensures e in s <==> e in s + t {
          InParent(e.path, at, name);
        }
        StandForMore(a, s, s + t, at, name, depth, r);
      } else {
        RestStands(b, s, t, at, name, depth, r);
      }
    }
    forall d ensures HasFolder(a + b, d) <==> IsIn(d, at) && |d| > |at| && Branches(s + t, d) {
      FoldersJoin(a, b, s, t, at, name, depth, d);
    }
  }

  lemma {:induction false} RestStands(
      b: seq<Row>, s: set<Entry>, t: set<Entry>, at: Path, name: Name, depth: nat, r: Row)
    requires StandBelow(b, t, at, depth) && AreIn(s, at + [name]) && r in b && Beside(r.path, at, name)
    ensures r.depth == depth + Branching(s + t, r.path, |at| + 1)
  {
    forall j | |at| + 1 <= j < |r.path| ensures Branches(t, r.path[..j]) <==> Branches(s + t, r.path[..j]) {
      BesideBranches(s, t, at, name, r.path[..j]);
    }
    SameBranching(t, s + t, r.path, |at| + 1);
  }

  lemma {:induction false} BesideBranches(s: set<Entry>, t: set<Entry>, at: Path, name: Name, d: Path)
    requires AreIn(s, at + [name]) && Beside(d, at, name)
    ensures Branches(t, d) <==> Branches(s + t, d)
  {
    forall e | Below(e, d) ensures e !in s {
      assert e.path[|at|] == e.path[..|d|][|at|];
      InParent(e.path, at, name);
    }
    SameBelow(t, s + t, d);
  }

  lemma {:induction false} InsideBranches(s: set<Entry>, t: set<Entry>, at: Path, name: Name, d: Path)
    requires IsIn(d, at + [name]) && forall e :: e in t ==> Beside(e.path, at, name)
    ensures Branches(s, d) <==> Branches(s + t, d)
  {
    forall e | Below(e, d) ensures e !in t {
      BelowPrefix(e, d, at + [name]);
      InParent(e.path, at, name);
    }
    SameBelow(s, s + t, d);
  }

  lemma {:induction false} FoldersJoin(
      a: seq<Row>, b: seq<Row>, s: set<Entry>, t: set<Entry>, at: Path, name: Name, depth: nat, d: Path)
    requires Stand(a, s, at + [name], depth) && StandBelow(b, t, at, depth)
    requires AreIn(s, at + [name]) && forall e :: e in t ==> Beside(e.path, at, name)
    requires forall r :: r in b ==> Beside(r.path, at, name)
    ensures HasFolder(a + b, d) <==> IsIn(d, at) && |d| > |at| && Branches(s + t, d)
  {
    assert HasFolder(a + b, d) <==> HasFolder(a, d) || HasFolder(b, d);
    InParent(d, at, name);
    if IsIn(d, at + [name]) {
      InsideBranches(s, t, at, name, d);
    } else if Beside(d, at, name) {
      BesideBranches(s, t, at, name, d);
    }
  }

  /** `at` leads to a folder whose rows are given the parent path `parent`. */
  predicate Leads(at: Path, parent: Path) {
    if at == [] then parent == NO_TEXT else at == parent != NO_TEXT
  }

  lemma {:induction false} ShownStand(v: View, dir: Directory, at: Path, parent: Path, depth: nat)
    requires AllExpanded(v) && Good(dir, at) && Full(dir.dirs) && Leads(at, parent)
    requires at == [] ==> NoEmptyName(dir.dirs)
    ensures StandBelow(Shown(v, dir, parent, depth), Entries(Listed(dir)), at, depth)
    decreases dir, 1
  {
    DirsStand(v, dir.dirs, at, parent, depth);
    FilesStand(v, dir.files, at, depth);
    forall e | e in EntriesOf(dir.files) ensures |e.path| == |at| + 1 {
      EntriesOfHolds(dir.files, e);
    }
    WithFiles(ShownDirs(v, dir.dirs, parent, depth), FileRows(v, dir.files, depth), Entries(ListedDirs(dir.dirs)),
      Entries(EntriesOf(dir.files)), at, depth);
    assert Entries(Listed(dir)) == Entries(ListedDirs(dir.dirs)) + Entries(EntriesOf(dir.files));
  }

  predicate IsFileAt(r: Row, at: Path, depth: nat) {
    r.file.Some? && IsIn(r.path, at) && |r.path| == |at| + 1 && r.depth == depth
  }

  lemma {:induction false} FilesStand(v: View, files: seq<File>, at: Path, depth: nat)
    requires forall k :: 0 <= k < |files| ==> files[k].path == at + [files[k].name]
    ensures forall r :: r in FileRows(v, files, depth) ==> IsFileAt(r, at, depth)
  {
    if files != [] {
      FilesStand(v, files[..|files| - 1], at, depth);
    }
  }

  lemma {:induction false} WithFiles(
      rows: seq<Row>, files: seq<Row>, s: set<Entry>, t: set<Entry>, at: Path, depth: nat)
    requires StandBelow(rows, s, at, depth) && forall r :: r in files ==> IsFileAt(r, at, depth)
    requires forall e :: e in t ==> |e.path| == |at| + 1
    ensures StandBelow(rows + files, s + t, at, depth)
  {
    forall d: Path | |d| > |at| ensures Branches(s, d) <==> Branches(s + t, d) {
      SameBelow(s, s + t, d);
    }
    forall r | r in rows + files
      ensures IsIn(r.path, at) && |r.path| > |at| && r.depth == depth + Branching(s + t, r.path, |at| + 1)
    {
      if r in rows {
        SameBranching(s, s + t, r.path, |at| + 1);
      }
    }
    forall d ensures HasFolder(rows + files, d) <==> HasFolder(rows, d) {}
  }

  lemma {:induction false} DirsStand(v: View, dirs: Dirs, at: Path, parent: Path, depth: nat)
    requires AllExpanded(v) && GoodDirs(dirs, at) && Full(dirs) && Leads(at, parent)
    requires at == [] ==> NoEmptyName(dirs)
    ensures StandBelow(ShownDirs(v, dirs, parent, depth), Entries(ListedDirs(dirs)), at, depth)
    ensures forall r :: r in ShownDirs(v, dirs, parent, depth) ==> |r.path| > |at| && NameIn(dirs, r.path[|at|])
    decreases dirs, 0
  {
    if dirs.End? {
      NothingStands(at, depth);
      assert Entries(ListedDirs(dirs)) == {};
      return;
    }
    var name, first, rest := dirs.name, Listed(dirs.dir), ListedDirs(dirs.rest);
    var a, b := ShownDir(v, name, dirs.dir, parent, depth), ShownDirs(v, dirs.rest, parent, depth);
    DirStands(v, name, dirs.dir, at, parent, depth);
    DirsStand(v, dirs.rest, at, parent, depth);
    forall e | e in first ensures Below(e, at + [name]) {
      ListedBelow(dirs.dir, at + [name], e);
    }
    forall e | e in rest ensures Beside(e.path, at, name) {
      ListedUnderDirs(dirs.rest, at, e);
      ListedBelowDirs(dirs.rest, at, e);
      NotInRest(dirs, e.path[|at|]);
    }
    forall r | r in b ensures Beside(r.path, at, name) {
      NotInRest(dirs, r.path[|at|]);
    }
    StandJoin(a, b, Entries(first), Entries(rest), at, name, depth);
    assert Entries(ListedDirs(dirs)) == Entries(first) + Entries(rest);
    forall r | r in a ensures |r.path| > |at| && r.path[|at|] == name {
      InParent(r.path, at, name);
    }
  }

  lemma {:induction false} NothingStands(at: Path, depth: nat)
    ensures StandBelow([], {}, at, depth)
  {
  }

  lemma {:induction false} NotInRest(dirs: Dirs, name: Name)
    requires dirs.More? && Above(dirs.rest, dirs.name) && NameIn(dirs.rest, name)
    ensures name != dirs.name
  {
    AboveAll(dirs.rest, dirs.name, name);
    LessIsTotal(dirs.name.text, name.text);
  }

  /** The row of one subfolder, folded as far as it goes, and those below it. */
  lemma {:induction false} DirStands(v: View, name: Name, dir: Directory, at: Path, parent: Path, depth: nat)
    requires AllExpanded(v) && Good(dir, at + [name]) && Full(dir.dirs) && Listed(dir) != [] && Leads(at, parent)
    requires at == [] ==> name != Name("")
    ensures Stand(ShownDir(v, name, dir, parent, depth), Entries(Listed(dir)), at + [name], depth)
    decreases dir, 2
  {
    var f := Fold([name], at + [name], dir);
    assert Under(parent, name) == at + [name];
    FoldFits([name], at + [name], dir);
    FoldEnds([name], at + [name], dir);
    FoldKeepsListed([name], at + [name], dir);
    SingleIsOne([name], at + [name], dir);
    FirstName(f.path, at, name);
    if IsSingle(f.node) {
      OneStands(v, f, at + [name], depth);
    } else {
      ShownStand(v, f.node, f.path, f.path, depth + 1);
      FolderStands(v, f, at + [name], depth);
    }
  }

  lemma {:induction false} OneStands(v: View, f: Folded, at: Path, depth: nat)
    requires IsSingle(f.node) && Good(f.node, f.path) && IsIn(f.path, at)
    ensures Stand([FileRow(v, f.node.files[0], f.title, depth)], Entries(Listed(f.node)), at, depth)
  {
    var file := f.node.files[0];
    var shown, path := Entries(Listed(f.node)), f.path + [file.name];
    assert EntriesOf(f.node.files) == [Entry(file.id, file.path)] && ListedDirs(f.node.dirs) == [];
    forall d ensures !Branches(shown, d) {
      assert !TwoBelow(shown, d);
    }
    NoBranching(shown, path, |at|, |path|);
    assert path[..|at|] == f.path[..|at|];
  }

  /** A folder that is not folded into another branches. */
  lemma {:induction false} UnfoldedBranches(node: Directory, at: Path)
    requires Good(node, at) && Full(node.dirs) && !IsChain(node) && |Listed(node)| > 1
    ensures Branches(Entries(Listed(node)), at)
  {
    var shown, s := Entries(Listed(node)), Listed(node);
    ListedDistinct(node, at);
    ListedBelow(node, at, s[0]);
    ListedBelow(node, at, s[1]);
    assert s[0] in s && s[1] in s && s[0] in shown && s[1] in shown && s[0] != s[1];
    assert TwoBelow(shown, at);
    forall a ensures Elsewhere(shown, at, a) {
      if node.dirs.More? {
        var e := UnfoldedHasOther(node, at, a);
        assert e in shown;
      } else {
        assert s == EntriesOf(node.files);
        EntriesOfHolds(node.files, s[0]);
        assert |s[0].path| == |at| + 1 && s[0] in shown;
      }
    }
  }

  /** A folder above it does not: everything is in the one subfolder that leads there. */
  lemma {:induction false} FoldedDoesNotBranch(shown: set<Entry>, path: Path, j: nat)
    requires AreIn(shown, path) && j < |path|
    ensures !Branches(shown, path[..j])
  {
    assert path[..j] + [path[j]] == path[..j + 1];
    forall e | e in shown ensures Below(e, path[..j + 1]) {
      BelowPrefix(e, path, path[..j + 1]);
    }
    assert !Elsewhere(shown, path[..j], path[j]);
  }

  /** All entries are in this folder, and it is the first that branches. */
  ghost predicate IsFirstBranch(shown: set<Entry>, folder: Path) {
    AreIn(shown, folder) && Branches(shown, folder) && forall j :: 0 <= j < |folder| ==> !Branches(shown, folder[..j])
  }

  lemma {:induction false} FolderStands(v: View, f: Folded, at: Path, depth: nat)
    requires AllExpanded(v) && Good(f.node, f.path) && Full(f.node.dirs) && !IsChain(f.node) && |Listed(f.node)| > 1
    requires IsIn(f.path, at)
    requires StandBelow(Shown(v, f.node, f.path, depth + 1), Entries(Listed(f.node)), f.path, depth + 1)
    ensures Stand(FolderShown(v, f, depth), Entries(Listed(f.node)), at, depth)
  {
    IsFirst(f.node, f.path);
    var below := Shown(v, f.node, f.path, depth + 1);
    FirstBranchStands(FolderRow(v, f, depth), below, Entries(Listed(f.node)), at, depth);
    OpenFolder(v, f, depth);
  }

  lemma {:induction false} OpenFolder(v: View, f: Folded, depth: nat)
    requires AllExpanded(v)
    ensures FolderShown(v, f, depth) == [FolderRow(v, f, depth)] + Shown(v, f.node, f.path, depth + 1)
  {
  }

  lemma {:induction false} IsFirst(node: Directory, at: Path)
    requires Good(node, at) && Full(node.dirs) && !IsChain(node) && |Listed(node)| > 1
    ensures IsFirstBranch(Entries(Listed(node)), at)
  {
    var shown := Entries(Listed(node));
    UnfoldedBranches(node, at);
    forall e | e in shown ensures Below(e, at) {
      ListedBelow(node, at, e);
    }
    forall j | 0 <= j < |at| ensures !Branches(shown, at[..j]) {
      FoldedDoesNotBranch(shown, at, j);
    }
  }

  lemma {:induction false} FirstBranchStands(row: Row, below: seq<Row>, shown: set<Entry>, at: Path, depth: nat)
    requires IsIn(row.path, at) && row.depth == depth && row.file.None?
    requires IsFirstBranch(shown, row.path) && StandBelow(below, shown, row.path, depth + 1)
    ensures Stand([row] + below, shown, at, depth)
  {
    var rows := [row] + below;
    NoBranching(shown, row.path, |at|, |row.path|);
    forall r | r in rows ensures IsIn(r.path, at) && r.depth == depth + Branching(shown, r.path, |at|) {
      if r in below {
        RowBelowStands(shown, row.path, at, r.path);
      }
    }
    forall d ensures HasFolder(rows, d) <==> IsIn(d, at) && Branches(shown, d) {
      FirstOrBelow(row, below, d);
      if Branches(shown, d) {
        BranchesAreBelow(shown, row.path, d);
      }
      if IsIn(d, row.path) {
        assert d[..|at|] == row.path[..|at|];
        assert |d| == |row.path| ==> d == row.path;
      }
    }
  }

  lemma {:induction false} FirstOrBelow(row: Row, below: seq<Row>, d: Path)
    requires row.file.None?
    ensures HasFolder([row] + below, d) <==> d == row.path || HasFolder(below, d)
  {
    assert row in [row] + below;
  }

  lemma {:induction false} RowBelowStands(shown: set<Entry>, folder: Path, at: Path, path: Path)
    requires IsIn(folder, at) && IsIn(path, folder) && |path| > |folder| && Branches(shown, folder)
    requires forall j :: 0 <= j < |folder| ==> !Branches(shown, folder[..j])
    ensures IsIn(path, at)
    ensures Branching(shown, path, |at|) == 1 + Branching(shown, path, |folder| + 1)
  {
    assert path[..|at|] == folder[..|at|];
    forall j | |at| <= j < |folder| ensures !Branches(shown, path[..j]) {
      assert path[..j] == folder[..j];
    }
    NoBranching(shown, path, |at|, |folder|);
  }

  lemma {:induction false} BranchesAreBelow(shown: set<Entry>, folder: Path, d: Path)
    requires AreIn(shown, folder) && Branches(shown, d)
    ensures IsIn(d, folder) || (|d| < |folder| && d == folder[..|d|])
  {
    var e :| e in shown && Below(e, d);
    if |d| < |folder| {
      assert folder[..|d|] == e.path[..|folder|][..|d|] == d;
    } else {
      assert d[..|folder|] == e.path[..|d|][..|folder|] == folder;
    }
  }

  /**
   For relative paths, with every folder open: a folder has a row exactly if it branches, and a row is
   as deep as there are branching folders above it.
   */
  lemma {:induction false} FolderRowsExactly(entries: seq<Entry>, matches: Entry -> bool, v: View)
    requires forall k :: 0 <= k < |entries| ==> entries[k].path != []
    requires forall k :: 0 <= k < |entries| && matches(entries[k]) ==> IsRelative(entries[k])
    requires AllExpanded(v)
    ensures var rows, shown := Shown(v, Build(entries, matches), NO_TEXT, 0), Matching(entries, matches);
      && (forall d :: HasFolder(rows, d) <==> d != [] && Branches(shown, d))
      && (forall r :: r in rows ==> r.depth == Branching(shown, r.path, 1))
  {
    var root := Build(entries, matches);
    BuildIsGood(entries, matches);
    BuildIsFull(entries, matches);
    BuildNames(entries, matches);
    ShownStand(v, root, [], NO_TEXT, 0);
    ListedIsMatching(entries, matches);
  }

  lemma {:induction false} ListedIsMatching(entries: seq<Entry>, matches: Entry -> bool)
    requires forall k :: 0 <= k < |entries| ==> entries[k].path != []
    ensures Entries(Listed(Build(entries, matches))) == Matching(entries, matches)
  {
    forall e ensures e in Listed(Build(entries, matches)) <==> e in entries && matches(e) {
      BuildHolds(entries, matches, e);
    }
  }
}
