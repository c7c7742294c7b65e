/** Directory listings and the recursive generators over them
    (`getFiles` in src/commands/join.ts, `getDirs` and `getFilesFromDir` in
    src/commands/mark.ts). A directory is the list of its entries in `readdir`
    order; a path is the segment list of an absolute normal path. */
module Walk {
  import opened Paths

  datatype Entry = FileEntry(name: string) | DirEntry(name: string, children: seq<Entry>)

  /** `readdir` only ever returns plain names. */
  predicate WellNamed(entries: seq<Entry>)
    decreases entries
  {
    forall i :: 0 <= i < |entries| ==>
      IsName(entries[i].name) && (entries[i].DirEntry? ==> WellNamed(entries[i].children))
  }

  /** `getFiles(dir)` for one entry of `dir`: the file itself, or everything
      below the subdirectory, depth-first. */
  function FilesOf(dir: seq<string>, e: Entry): seq<seq<string>>
    decreases e, 1
  {
    if e.FileEntry? then [dir + [e.name]] else FilesBelow(dir + [e.name], e.children)
  }

  /** `getFiles(dir)`: each entry in listing order, descending into a
      subdirectory at its position in the listing. */
  function FilesBelow(dir: seq<string>, entries: seq<Entry>): seq<seq<string>>
    decreases entries, 0
  {
    if entries == [] then []
    else FilesOf(dir, entries[0]) + FilesBelow(dir, entries[1..])
  }

  /** Reference count: the files of a tree. */
  function FileCount(entries: seq<Entry>): nat
    decreases entries
  {
    if entries == [] then 0
    else (if entries[0].FileEntry? then 1 else FileCount(entries[0].children)) + FileCount(entries[1..])
  }

  /** The walk yields every file of the tree exactly once. */
  lemma {:induction false} FilesBelowCount(dir: seq<string>, entries: seq<Entry>)
    ensures |FilesBelow(dir, entries)| == FileCount(entries)
    decreases entries
  {
    if entries != [] {
      if entries[0].DirEntry? {
        FilesBelowCount(dir + [entries[0].name], entries[0].children);
      }
      FilesBelowCount(dir, entries[1..]);
    }
  }

  /** Every yielded path lies strictly below the directory walked, and
      consists of normal names when the directory does. */
  lemma {:induction false} FilesBelowPaths(dir: seq<string>, entries: seq<Entry>)
    requires NormalSegs(true, dir) && WellNamed(entries)
    ensures forall i :: 0 <= i < |FilesBelow(dir, entries)| ==>
      var p := FilesBelow(dir, entries)[i];
      |dir| < |p| && p[..|dir|] == dir && NormalSegs(true, p)
    decreases entries
  {
    if entries != [] {
      var e := entries[0];
      var here := dir + [e.name];
      assert NormalSegs(true, here);
      if e.DirEntry? {
        FilesBelowPaths(here, e.children);
        forall p | p in FilesBelow(here, e.children) ensures p[..|dir|] == dir {
          assert p[..|here|][..|dir|] == here[..|dir|];
        }
      }
      assert WellNamed(entries[1..]) by {
        forall i | 0 <= i < |entries[1..]| ensures IsName(entries[1..][i].name) {
          assert entries[1..][i] == entries[i + 1];
        }
      }
      FilesBelowPaths(dir, entries[1..]);
      var l, r := FilesOf(dir, e), FilesBelow(dir, entries[1..]);
      forall i | 0 <= i < |l + r|
        ensures var p := (l + r)[i]; |dir| < |p| && p[..|dir|] == dir && NormalSegs(true, p)
      {
        if i < |l| { assert (l + r)[i] == l[i]; assert l[i] in l; } else { assert (l + r)[i] == r[i - |l|]; }
      }
    }
  }

  /** Depth-first: walking a listing split in two walks the first part, then
      the second. */
  lemma {:induction false} FilesBelowAppend(dir: seq<string>, a: seq<Entry>, b: seq<Entry>)
    ensures FilesBelow(dir, a + b) == FilesBelow(dir, a) + FilesBelow(dir, b)
    decreases |a|
  {
    if a == [] {
      assert a + b == b;
    } else {
      assert (a + b)[0] == a[0];
      assert (a + b)[1..] == a[1..] + b;
      FilesBelowAppend(dir, a[1..], b);
    }
  }

  /** `getFilesFromDir(dir)`: the entries of `dir` that are not directories. */
  function FilesIn(dir: seq<string>, entries: seq<Entry>): (r: seq<seq<string>>)
    ensures |r| <= |entries|
  {
    if entries == [] then []
    else (if entries[0].FileEntry? then [dir + [entries[0].name]] else []) + FilesIn(dir, entries[1..])
  }

  /** `getDirs(dir)` for one entry: a subdirectory is yielded, with its
      listing, before everything below it. */
  function DirsOf(dir: seq<string>, e: Entry): seq<(seq<string>, seq<Entry>)>
    decreases e, 1
  {
    if e.FileEntry? then [] else [(dir + [e.name], e.children)] + DirsBelow(dir + [e.name], e.children)
  }

  /** `getDirs(dir)`: every directory below `dir`, in pre-order; `dir` itself
      is not included. */
  function DirsBelow(dir: seq<string>, entries: seq<Entry>): seq<(seq<string>, seq<Entry>)>
    decreases entries, 0
  {
    if entries == [] then []
    else DirsOf(dir, entries[0]) + DirsBelow(dir, entries[1..])
  }

  function DirCount(entries: seq<Entry>): nat
    decreases entries
  {
    if entries == [] then 0
    else (if entries[0].DirEntry? then 1 + DirCount(entries[0].children) else 0) + DirCount(entries[1..])
  }

  /** Every subdirectory of the tree is visited exactly once. */
  lemma {:induction false} DirsBelowCount(dir: seq<string>, entries: seq<Entry>)
    ensures |DirsBelow(dir, entries)| == DirCount(entries)
    decreases entries
  {
    if entries != [] {
      if entries[0].DirEntry? {
        DirsBelowCount(dir + [entries[0].name], entries[0].children);
      }
      DirsBelowCount(dir, entries[1..]);
    }
  }

  // ---------------------------------------------------------------- what the walks yield

  /** `rel` leads, name by name, from the directory holding `e` through `e`
      to a file of the tree. */
  predicate LeadsToFile(e: Entry, rel: seq<string>)
    decreases e, 1
  {
    0 < |rel| && e.name == rel[0] &&
      if e.FileEntry? then |rel| == 1 else IsFileAt(e.children, rel[1..])
  }

  /** `rel` leads from the directory listed by `entries` to a file of its
      tree. */
  predicate IsFileAt(entries: seq<Entry>, rel: seq<string>)
    decreases entries, 0
  {
    exists i :: 0 <= i < |entries| && LeadsToFile(entries[i], rel)
  }

  /** `rel` leads from the directory holding `e` through `e` to a directory
      of the tree whose listing is `listing`. */
  predicate LeadsToDir(e: Entry, rel: seq<string>, listing: seq<Entry>)
    decreases e, 1
  {
    e.DirEntry? && 0 < |rel| && e.name == rel[0] &&
      if |rel| == 1 then listing == e.children else IsDirAt(e.children, rel[1..], listing)
  }

  /** `rel` leads from the directory listed by `entries` to a directory of
      its tree listed by `listing`. */
  predicate IsDirAt(entries: seq<Entry>, rel: seq<string>, listing: seq<Entry>)
    decreases entries, 0
  {
    exists i :: 0 <= i < |entries| && LeadsToDir(entries[i], rel, listing)
  }

  /** `readdir` never lists two entries under one name, in any directory. */
  predicate UniqueNames(entries: seq<Entry>)
    decreases entries
  {
    && (forall i, j :: 0 <= i < j < |entries| ==> entries[i].name != entries[j].name)
    && (forall i :: 0 <= i < |entries| && entries[i].DirEntry? ==> UniqueNames(entries[i].children))
  }

  lemma IsFileAtCons(entries: seq<Entry>, rel: seq<string>)
    requires entries != []
    ensures IsFileAt(entries, rel) <==> LeadsToFile(entries[0], rel) || IsFileAt(entries[1..], rel)
  {
    if IsFileAt(entries, rel) {
      var i :| 0 <= i < |entries| && LeadsToFile(entries[i], rel);
      if i > 0 { assert entries[1..][i - 1] == entries[i]; }
    }
    if IsFileAt(entries[1..], rel) {
      var i :| 0 <= i < |entries[1..]| && LeadsToFile(entries[1..][i], rel);
      assert entries[i + 1] == entries[1..][i];
    }
  }

  lemma IsDirAtCons(entries: seq<Entry>, rel: seq<string>, listing: seq<Entry>)
    requires entries != []
    ensures IsDirAt(entries, rel, listing) <==> LeadsToDir(entries[0], rel, listing) || IsDirAt(entries[1..], rel, listing)
  {
    if IsDirAt(entries, rel, listing) {
      var i :| 0 <= i < |entries| && LeadsToDir(entries[i], rel, listing);
      if i > 0 { assert entries[1..][i - 1] == entries[i]; }
    }
    if IsDirAt(entries[1..], rel, listing) {
      var i :| 0 <= i < |entries[1..]| && LeadsToDir(entries[1..][i], rel, listing);
      assert entries[i + 1] == entries[1..][i];
    }
  }

  /** Splitting a path one name below `dir`. */
  lemma PathBelow(dir: seq<string>, name: string, p: seq<string>)
    requires |dir| < |p|
    ensures p[..|dir| + 1] == dir + [name] <==> p[..|dir|] == dir && p[|dir|..][0] == name
    ensures p[|dir|..][1..] == p[|dir| + 1..]
    ensures p == dir + [name] <==> p[..|dir|] == dir && p[|dir|..] == [name]
  {
    assert p == p[..|dir|] + p[|dir|..];
    if p[..|dir|] == dir && p[|dir|..][0] == name {
      assert p[..|dir| + 1] == p[..|dir|] + [p[|dir|]];
    }
  }

  /** The empty path leads to no entry. */
  lemma NothingAtEmptyPath(entries: seq<Entry>, listing: seq<Entry>)
    ensures !IsFileAt(entries, []) && !IsDirAt(entries, [], listing)
  {
  }

  /** A path is yielded by `getFiles` exactly when it leads from the walked
      directory to a file of the tree. */
  lemma {:induction false} FilesBelowMember(dir: seq<string>, entries: seq<Entry>, p: seq<string>)
    ensures p in FilesBelow(dir, entries) <==>
      |dir| < |p| && p[..|dir|] == dir && IsFileAt(entries, p[|dir|..])
    decreases entries, 0
  {
    if entries != [] {
      FilesOfMember(dir, entries[0], p);
      FilesBelowMember(dir, entries[1..], p);
      if |dir| < |p| {
        IsFileAtCons(entries, p[|dir|..]);
      }
    }
  }

  /** The same for one entry of the walked directory. */
  lemma {:induction false} FilesOfMember(dir: seq<string>, e: Entry, p: seq<string>)
    ensures p in FilesOf(dir, e) <==>
      |dir| < |p| && p[..|dir|] == dir && LeadsToFile(e, p[|dir|..])
    decreases e, 1
  {
    if |dir| < |p| {
      PathBelow(dir, e.name, p);
    }
    if e.DirEntry? {
      FilesBelowMember(dir + [e.name], e.children, p);
      if |p| == |dir| + 1 {
        assert p[|dir|..][1..] == [];
        NothingAtEmptyPath(e.children, []);
      }
    }
  }

  /** A directory is yielded by `getDirs`, with its listing, exactly when a
      path leads from the walked directory to it. */
  lemma {:induction false} DirsBelowMember(dir: seq<string>, entries: seq<Entry>, p: seq<string>, listing: seq<Entry>)
    ensures (p, listing) in DirsBelow(dir, entries) <==>
      |dir| < |p| && p[..|dir|] == dir && IsDirAt(entries, p[|dir|..], listing)
    decreases entries, 0
  {
    if entries != [] {
      DirsOfMember(dir, entries[0], p, listing);
      DirsBelowMember(dir, entries[1..], p, listing);
      if |dir| < |p| {
        IsDirAtCons(entries, p[|dir|..], listing);
      }
    }
  }

  /** The same for one entry of the walked directory. */
  lemma {:induction false} DirsOfMember(dir: seq<string>, e: Entry, p: seq<string>, listing: seq<Entry>)
    ensures (p, listing) in DirsOf(dir, e) <==>
      |dir| < |p| && p[..|dir|] == dir && LeadsToDir(e, p[|dir|..], listing)
    decreases e, 1
  {
    if |dir| < |p| {
      PathBelow(dir, e.name, p);
    }
    if e.DirEntry? {
      DirsBelowMember(dir + [e.name], e.children, p, listing);
      if |p| == |dir| + 1 {
        assert p[|dir|..][1..] == [];
        NothingAtEmptyPath(e.children, listing);
      }
    }
  }

  lemma UniqueNamesTail(entries: seq<Entry>)
    requires UniqueNames(entries) && entries != []
    ensures UniqueNames(entries[1..])
  {
    forall i, j | 0 <= i < j < |entries[1..]| ensures entries[1..][i].name != entries[1..][j].name {
      assert entries[1..][i] == entries[i + 1] && entries[1..][j] == entries[j + 1];
    }
    forall i | 0 <= i < |entries[1..]| && entries[1..][i].DirEntry? ensures UniqueNames(entries[1..][i].children) {
      assert entries[1..][i] == entries[i + 1];
    }
  }

  /** Below the first entry of a listing, every path of the rest of the
      listing goes through another name. */
  lemma FirstNameOfRest(entries: seq<Entry>, rel: seq<string>)
    requires UniqueNames(entries) && entries != [] && 0 < |rel|
    requires IsFileAt(entries[1..], rel) || exists l :: IsDirAt(entries[1..], rel, l)
    ensures rel[0] != entries[0].name
  {
    var k;
    if IsFileAt(entries[1..], rel) {
      k :| 0 <= k < |entries[1..]| && LeadsToFile(entries[1..][k], rel);
    } else {
      var l :| IsDirAt(entries[1..], rel, l);
      k :| 0 <= k < |entries[1..]| && LeadsToDir(entries[1..][k], rel, l);
    }
    assert entries[1..][k] == entries[k + 1];
  }

  /** A list in which nothing comes twice. */
  predicate Distinct<T(==)>(s: seq<T>) {
    forall i, j :: 0 <= i < j < |s| ==> s[i] != s[j]
  }

  /** Joining two lists without repeats, no element of the first being in
      the second, gives a list without repeats. */
  lemma DistinctConcat<T>(a: seq<T>, b: seq<T>)
    requires Distinct(a) && Distinct(b)
    requires forall x :: x in a ==> x !in b
    ensures Distinct(a + b)
  {
    forall i, j | 0 <= i < j < |a + b| ensures (a + b)[i] != (a + b)[j] {
      if j < |a| {
        assert (a + b)[i] == a[i] && (a + b)[j] == a[j];
      } else if |a| <= i {
        assert (a + b)[i] == b[i - |a|] && (a + b)[j] == b[j - |a|];
      } else {
        assert (a + b)[i] == a[i] && a[i] in a;
        assert (a + b)[j] == b[j - |a|] && b[j - |a|] in b;
      }
    }
  }

  /** When no listing names two entries alike, `getFiles` yields no path
      twice. */
  lemma {:induction false} FilesBelowDistinct(dir: seq<string>, entries: seq<Entry>)
    requires UniqueNames(entries)
    ensures Distinct(FilesBelow(dir, entries))
    decreases entries
  {
    if entries != [] {
      var e := entries[0];
      var l, r := FilesOf(dir, e), FilesBelow(dir, entries[1..]);
      if e.DirEntry? {
        FilesBelowDistinct(dir + [e.name], e.children);
      }
      UniqueNamesTail(entries);
      FilesBelowDistinct(dir, entries[1..]);
      forall p | p in l ensures p !in r {
        FilesOfMember(dir, e, p);
        FilesBelowMember(dir, entries[1..], p);
        if p in r {
          FirstNameOfRest(entries, p[|dir|..]);
        }
      }
      DistinctConcat(l, r);
    }
  }

  /** A list of directories in which no path comes twice. */
  predicate DistinctDirs(ds: seq<(seq<string>, seq<Entry>)>) {
    forall i, j :: 0 <= i < j < |ds| ==> ds[i].0 != ds[j].0
  }

  lemma DistinctDirsConcat(a: seq<(seq<string>, seq<Entry>)>, b: seq<(seq<string>, seq<Entry>)>)
    requires DistinctDirs(a) && DistinctDirs(b)
    requires forall i, j :: 0 <= i < |a| && 0 <= j < |b| ==> a[i].0 != b[j].0
    ensures DistinctDirs(a + b)
  {
    forall i, j | 0 <= i < j < |a + b| ensures (a + b)[i].0 != (a + b)[j].0 {
      if j < |a| {
        assert (a + b)[i] == a[i] && (a + b)[j] == a[j];
      } else if |a| <= i {
        assert (a + b)[i] == b[i - |a|] && (a + b)[j] == b[j - |a|];
      } else {
        assert (a + b)[i] == a[i] && (a + b)[j] == b[j - |a|];
      }
    }
  }

  /** When no listing names two entries alike, `getDirs` yields no
      directory twice. */
  lemma {:induction false} DirsBelowDistinct(dir: seq<string>, entries: seq<Entry>)
    requires UniqueNames(entries)
    ensures DistinctDirs(DirsBelow(dir, entries))
    decreases entries
  {
    if entries != [] {
      var e := entries[0];
      var l, r := DirsOf(dir, e), DirsBelow(dir, entries[1..]);
      if e.DirEntry? {
        var here := dir + [e.name];
        var below := DirsBelow(here, e.children);
        DirsBelowDistinct(here, e.children);
        forall j | 0 <= j < |below| ensures here != below[j].0 {
          assert below[j] in below;
          DirsBelowMember(here, e.children, below[j].0, below[j].1);
        }
        DistinctDirsConcat([(here, e.children)], below);
      }
      UniqueNamesTail(entries);
      DirsBelowDistinct(dir, entries[1..]);
      forall i, j | 0 <= i < |l| && 0 <= j < |r| ensures l[i].0 != r[j].0 {
        assert l[i] in l && r[j] in r;
        DirsOfMember(dir, e, l[i].0, l[i].1);
        DirsBelowMember(dir, entries[1..], r[j].0, r[j].1);
        if l[i].0 == r[j].0 {
          FirstNameOfRest(entries, r[j].0[|dir|..]);
        }
      }
      DistinctDirsConcat(l, r);
    }
  }

  // ---------------------------------------------------------------- the generators on path strings

  /** The printed form of a list of absolute segment lists. */
  function Formatted(paths: seq<seq<string>>): (r: seq<string>)
    ensures |r| == |paths| && forall i :: 0 <= i < |r| ==> r[i] == Format(Path(true, paths[i]))
  {
    seq(|paths|, i requires 0 <= i < |paths| => Format(Path(true, paths[i])))
  }

  lemma FormattedAppend(a: seq<seq<string>>, b: seq<seq<string>>)
    ensures Formatted(a + b) == Formatted(a) + Formatted(b)
  {
    assert forall i :: 0 <= i < |a + b| ==> (a + b)[i] == if i < |a| then a[i] else b[i - |a|];
  }

  /** `path.resolve(dir, name)`: the name resolved against the resolved directory. */
  function ResolveIn(cwd: string, dir: string, name: string): string {
    Resolve(Resolve(cwd, dir), name)
  }

  /** `getFiles(dir)` of src/commands/join.ts for one directory entry. */
  function GetFilesOf(cwd: string, dir: string, e: Entry): seq<string>
    decreases e, 1
  {
    var res := ResolveIn(cwd, dir, e.name);
    if e.DirEntry? then GetFiles(cwd, res, e.children) else [res]
  }

  /** `getFiles(dir)`: `dir` is listed by `entries`. */
  function GetFiles(cwd: string, dir: string, entries: seq<Entry>): seq<string>
    decreases entries, 0
  {
    if entries == [] then [] else GetFilesOf(cwd, dir, entries[0]) + GetFiles(cwd, dir, entries[1..])
  }

  lemma WellNamedTail(entries: seq<Entry>)
    requires WellNamed(entries) && entries != []
    ensures WellNamed(entries[1..])
  {
    forall i | 0 <= i < |entries[1..]| ensures IsName(entries[1..][i].name) {
      assert entries[1..][i] == entries[i + 1];
    }
  }

  /** Resolving a listed name against a directory appends the name to the
      directory's resolved path. */
  lemma ResolveInName(cwd: string, dir: string, name: string)
    requires IsName(name)
    ensures var segs := ResolvedPath(cwd, dir).segs;
      NormalSegs(true, segs + [name]) &&
      ResolveIn(cwd, dir, name) == Format(Path(true, segs + [name])) &&
      ResolvedPath(cwd, ResolveIn(cwd, dir, name)).segs == segs + [name]
  {
    var segs := ResolvedPath(cwd, dir).segs;
    assert NormalSegs(true, segs + [name]);
    ResolveName(segs, name);
    ResolveResolved(cwd, segs + [name]);
  }

  /** The generator yields, in order, the printed absolute paths of the files
      of the tree below the resolved directory. */
  lemma {:induction false} GetFilesResolved(cwd: string, dir: string, entries: seq<Entry>)
    requires WellNamed(entries)
    ensures GetFiles(cwd, dir, entries) == Formatted(FilesBelow(ResolvedPath(cwd, dir).segs, entries))
    decreases entries, 0
  {
    if entries != [] {
      var segs := ResolvedPath(cwd, dir).segs;
      var e := entries[0];
      GetFilesOfResolved(cwd, dir, e);
      WellNamedTail(entries);
      GetFilesResolved(cwd, dir, entries[1..]);
      FormattedAppend(FilesOf(segs, e), FilesBelow(segs, entries[1..]));
    }
  }

  /** The same for one entry: the file itself, or everything below the
      subdirectory. */
  lemma {:induction false} GetFilesOfResolved(cwd: string, dir: string, e: Entry)
    requires IsName(e.name) && (e.DirEntry? ==> WellNamed(e.children))
    ensures GetFilesOf(cwd, dir, e) == Formatted(FilesOf(ResolvedPath(cwd, dir).segs, e))
    decreases e, 1
  {
    ResolveInName(cwd, dir, e.name);
    if e.DirEntry? {
      GetFilesResolved(cwd, ResolveIn(cwd, dir, e.name), e.children);
    }
  }

  /** `getFilesFromDir(dir)` of src/commands/mark.ts: the entries that are not
      directories, resolved against `dir`. */
  function GetFilesFromDir(cwd: string, dir: string, entries: seq<Entry>): seq<string> {
    if entries == [] then []
    else (if entries[0].FileEntry? then [ResolveIn(cwd, dir, entries[0].name)] else []) + GetFilesFromDir(cwd, dir, entries[1..])
  }

  lemma {:induction false} GetFilesFromDirResolved(cwd: string, dir: string, entries: seq<Entry>)
    requires WellNamed(entries)
    ensures GetFilesFromDir(cwd, dir, entries) == Formatted(FilesIn(ResolvedPath(cwd, dir).segs, entries))
  {
    if entries != [] {
      var segs := ResolvedPath(cwd, dir).segs;
      var e := entries[0];
      FileHeadResolved(cwd, dir, e);
      WellNamedTail(entries);
      GetFilesFromDirResolved(cwd, dir, entries[1..]);
      FormattedAppend(if e.FileEntry? then [segs + [e.name]] else [], FilesIn(segs, entries[1..]));
    }
  }

  lemma FileHeadResolved(cwd: string, dir: string, e: Entry)
    requires IsName(e.name)
    ensures (if e.FileEntry? then [ResolveIn(cwd, dir, e.name)] else [])
      == Formatted(if e.FileEntry? then [ResolvedPath(cwd, dir).segs + [e.name]] else [])
  {
    ResolveInName(cwd, dir, e.name);
  }

  /** `getDirs(dir)` of src/commands/mark.ts for one entry: a subdirectory is
      yielded, with its listing, before everything below it. */
  function GetDirsOf(cwd: string, dir: string, e: Entry): seq<(string, seq<Entry>)>
    decreases e, 1
  {
    var res := ResolveIn(cwd, dir, e.name);
    if e.FileEntry? then [] else [(res, e.children)] + GetDirs(cwd, res, e.children)
  }

  /** `getDirs(dir)`: every directory below `dir`, in pre-order, each with its
      listing; `dir` itself is not included. */
  function GetDirs(cwd: string, dir: string, entries: seq<Entry>): seq<(string, seq<Entry>)>
    decreases entries, 0
  {
    if entries == [] then [] else GetDirsOf(cwd, dir, entries[0]) + GetDirs(cwd, dir, entries[1..])
  }

  /** The printed form of a list of directories with their listings. */
  function FormattedDirs(dirs: seq<(seq<string>, seq<Entry>)>): (r: seq<(string, seq<Entry>)>)
    ensures |r| == |dirs| && forall i :: 0 <= i < |r| ==> r[i] == (Format(Path(true, dirs[i].0)), dirs[i].1)
  {
    seq(|dirs|, i requires 0 <= i < |dirs| => (Format(Path(true, dirs[i].0)), dirs[i].1))
  }

  lemma FormattedDirsAppend(a: seq<(seq<string>, seq<Entry>)>, b: seq<(seq<string>, seq<Entry>)>)
    ensures FormattedDirs(a + b) == FormattedDirs(a) + FormattedDirs(b)
  {
    assert forall i :: 0 <= i < |a + b| ==> (a + b)[i] == if i < |a| then a[i] else b[i - |a|];
  }

  /** The generator yields, in pre-order, the printed absolute paths of the
      directories of the tree below the resolved directory. */
  lemma {:induction false} GetDirsResolved(cwd: string, dir: string, entries: seq<Entry>)
    requires WellNamed(entries)
    ensures GetDirs(cwd, dir, entries) == FormattedDirs(DirsBelow(ResolvedPath(cwd, dir).segs, entries))
    decreases entries, 0
  {
    if entries != [] {
      var segs := ResolvedPath(cwd, dir).segs;
      var e := entries[0];
      GetDirsOfResolved(cwd, dir, e);
      WellNamedTail(entries);
      GetDirsResolved(cwd, dir, entries[1..]);
      FormattedDirsAppend(DirsOf(segs, e), DirsBelow(segs, entries[1..]));
    }
  }

  /** The same for one entry: nothing for a file, the subdirectory and
      everything below it for a directory. */
  lemma {:induction false} GetDirsOfResolved(cwd: string, dir: string, e: Entry)
    requires IsName(e.name) && (e.DirEntry? ==> WellNamed(e.children))
    ensures GetDirsOf(cwd, dir, e) == FormattedDirs(DirsOf(ResolvedPath(cwd, dir).segs, e))
    decreases e, 1
  {
    if e.DirEntry? {
      var segs := ResolvedPath(cwd, dir).segs;
      ResolveInName(cwd, dir, e.name);
      GetDirsResolved(cwd, ResolveIn(cwd, dir, e.name), e.children);
      FormattedDirsAppend([(segs + [e.name], e.children)], DirsBelow(segs + [e.name], e.children));
    }
  }
}
