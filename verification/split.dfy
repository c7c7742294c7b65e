/** The `split` command (src/commands/split.ts): the entries of one big storage
    are grouped by the directory their audio file lands in below the working
    directory, each group is checked against the filesystem with the operator
    deciding about every discrepancy, and one local storage per surviving group
    is written. */
module Split {
  import opened Text
  import opened Model
  import opened Paths
  import opened Utils
  import opened Prompt
  import opened MarkList

  // ---------------------------------------------------------------- the foreign root

  /** The phone's user directory as an absolute path: given absolute, or below
      the storage's absolute `externalStorageDirectory`, or else resolved
      against the process's working directory. */
  function AbsolutePhoneUserDir(cwd: string, phoneUserDir: string, externalStorageDirectory: string): (r: string)
    ensures IsAbsolute(r)
    ensures IsAbsolute(phoneUserDir) ==> r == phoneUserDir
    ensures !IsAbsolute(phoneUserDir) && IsAbsolute(externalStorageDirectory) ==>
      r == Join(externalStorageDirectory, phoneUserDir)
    ensures !IsAbsolute(phoneUserDir) && !IsAbsolute(externalStorageDirectory) ==>
      r == Resolve(cwd, phoneUserDir)
  {
    if IsAbsolute(phoneUserDir) then phoneUserDir
    else if IsAbsolute(externalStorageDirectory) then
      JoinAbsolute(externalStorageDirectory, phoneUserDir);
      Join(externalStorageDirectory, phoneUserDir)
    else
      FormatAbsoluteIsAbsolute(ResolvedPath(cwd, phoneUserDir));
      Resolve(cwd, phoneUserDir)
  }

  /** The working directory: the directory holding the input storage. */
  function WorkingDir(cwd: string, inputFilePath: string): (r: string)
    ensures IsAbsolute(r)
  {
    FormatAbsoluteIsAbsolute(ResolvedPath(cwd, Dirname(inputFilePath)));
    Resolve(cwd, Dirname(inputFilePath))
  }

  // ---------------------------------------------------------------- grouping

  /** Where an entry's audio file lies: below the working directory, an
      absolute entry path being first taken relative to the phone's user
      directory. */
  function TargetPath(cwd: string, workingDir: string, phoneUserDir: string, file: AudioFile): string {
    Join(workingDir, if IsAbsolute(file.filepath) then Relative(cwd, phoneUserDir, file.filepath) else file.filepath)
  }

  /** An entry with the directory it belongs to. */
  datatype Placed = Placed(dir: string, entry: AudioFile)

  /** One entry of the map under construction: its directory, and the entry
      with its path made relative to that directory. Joining the two gives
      back where the audio file lies; nothing else of the entry changes. */
  function Place(cwd: string, workingDir: string, phoneUserDir: string, file: AudioFile): (p: Placed)
    requires IsAbsolute(workingDir)
    ensures p.entry == file.(filepath := p.entry.filepath)
    ensures IsAbsolute(p.dir)
    ensures Join(p.dir, p.entry.filepath) == TargetPath(cwd, workingDir, phoneUserDir, file)
  {
    var rel := if IsAbsolute(file.filepath) then Relative(cwd, phoneUserDir, file.filepath) else file.filepath;
    var filepath := Join(workingDir, rel);
    JoinAbsolute(workingDir, rel);
    RejoinParent(cwd, JoinedPath(workingDir, rel).segs);
    var dir := Resolve(cwd, Dirname(filepath));
    Placed(dir, file.(filepath := Relative(cwd, dir, filepath)))
  }

  /** Every entry placed, in storage order. */
  function PlaceAll(cwd: string, workingDir: string, phoneUserDir: string, files: seq<AudioFile>): (r: seq<Placed>)
    requires IsAbsolute(workingDir)
    ensures |r| == |files|
    decreases |files|
  {
    if files == [] then []
    else PlaceAll(cwd, workingDir, phoneUserDir, files[..|files| - 1]) + [Place(cwd, workingDir, phoneUserDir, files[|files| - 1])]
  }

  lemma PlaceAllSnoc(cwd: string, workingDir: string, phoneUserDir: string, files: seq<AudioFile>, i: int)
    requires IsAbsolute(workingDir) && 0 <= i < |files|
    ensures PlaceAll(cwd, workingDir, phoneUserDir, files[..i + 1])
      == PlaceAll(cwd, workingDir, phoneUserDir, files[..i]) + [Place(cwd, workingDir, phoneUserDir, files[i])]
  {
    assert files[..i + 1][..i] == files[..i];
  }

  /** The directory map: directories in insertion order, each with its entries. */
  datatype Group = Group(dir: string, files: seq<AudioFile>)

  /** `dirFilesMap.has(dir)` / `get(dir)`: the position of `dir`, or the length. */
  function IndexOfDir(groups: seq<Group>, dir: string): (i: nat)
    ensures i <= |groups|
    ensures i < |groups| ==> groups[i].dir == dir
    ensures forall j :: 0 <= j < i ==> groups[j].dir != dir
  {
    if groups == [] then 0
    else if groups[0].dir == dir then 0
    else 1 + IndexOfDir(groups[1..], dir)
  }

  /** Pushing an entry onto its directory's list, or opening a list for it. */
  function AddEntry(groups: seq<Group>, p: Placed): seq<Group> {
    var i := IndexOfDir(groups, p.dir);
    if i < |groups| then groups[i := Group(groups[i].dir, groups[i].files + [p.entry])]
    else groups + [Group(p.dir, [p.entry])]
  }

  /** The map `buildDirFilesMap` builds, entry by entry. */
  function Grouped(placed: seq<Placed>): seq<Group>
    decreases |placed|
  {
    if placed == [] then [] else AddEntry(Grouped(placed[..|placed| - 1]), placed[|placed| - 1])
  }

  /** The map update of one step: append to the directory's list, or open one. */
  method PushEntry(dirFilesMap: seq<Group>, placed: Placed) returns (r: seq<Group>)
    ensures r == AddEntry(dirFilesMap, placed)
  {
    var k := IndexOfDir(dirFilesMap, placed.dir);
    if k < |dirFilesMap| {
      r := dirFilesMap[k := Group(dirFilesMap[k].dir, dirFilesMap[k].files + [placed.entry])];
    } else {
      r := dirFilesMap + [Group(placed.dir, [placed.entry])];
    }
  }

  lemma GroupedSnoc(placed: seq<Placed>, p: Placed)
    ensures Grouped(placed + [p]) == AddEntry(Grouped(placed), p)
  {
    assert (placed + [p])[..|placed|] == placed;
  }

  /** `buildDirFilesMap`. */
  method BuildDirFilesMap(cwd: string, storage: Storage, absolutePhoneUserDir: string, workingDir: string)
    returns (dirFilesMap: seq<Group>)
    requires IsAbsolute(workingDir)
    ensures dirFilesMap == Grouped(PlaceAll(cwd, workingDir, absolutePhoneUserDir, storage.files))
  {
    var files := storage.files;
    dirFilesMap := [];
    for i := 0 to |files|
      invariant dirFilesMap == Grouped(PlaceAll(cwd, workingDir, absolutePhoneUserDir, files[..i]))
    {
      var placed := Place(cwd, workingDir, absolutePhoneUserDir, files[i]);
      BuildStep(cwd, workingDir, absolutePhoneUserDir, files, i);
      dirFilesMap := PushEntry(dirFilesMap, placed);
    }
    assert files[..|files|] == files;
  }

  /** One iteration of `buildDirFilesMap`: the next entry, placed, is added to
      the map built so far. */
  lemma BuildStep(cwd: string, workingDir: string, phoneUserDir: string, files: seq<AudioFile>, i: int)
    requires IsAbsolute(workingDir) && 0 <= i < |files|
    ensures Grouped(PlaceAll(cwd, workingDir, phoneUserDir, files[..i + 1]))
      == AddEntry(Grouped(PlaceAll(cwd, workingDir, phoneUserDir, files[..i])), Place(cwd, workingDir, phoneUserDir, files[i]))
  {
    PlaceAllSnoc(cwd, workingDir, phoneUserDir, files, i);
    GroupedSnoc(PlaceAll(cwd, workingDir, phoneUserDir, files[..i]), Place(cwd, workingDir, phoneUserDir, files[i]));
  }

  /** Reference for the grouping: the distinct directories in order of first
      appearance... */
  function DirOrder(placed: seq<Placed>): seq<string>
    decreases |placed|
  {
    if placed == [] then []
    else
      var dirs := DirOrder(placed[..|placed| - 1]);
      if placed[|placed| - 1].dir in dirs then dirs else dirs + [placed[|placed| - 1].dir]
  }

  /** ...and, for each, its entries in input order. */
  function EntriesFor(placed: seq<Placed>, dir: string): seq<AudioFile>
    decreases |placed|
  {
    if placed == [] then []
    else
      EntriesFor(placed[..|placed| - 1], dir)
      + (if placed[|placed| - 1].dir == dir then [placed[|placed| - 1].entry] else [])
  }

  lemma {:induction false} DirOrderFacts(placed: seq<Placed>)
    ensures forall i, j :: 0 <= i < j < |DirOrder(placed)| ==> DirOrder(placed)[i] != DirOrder(placed)[j]
    ensures forall d :: d in DirOrder(placed) <==> exists k :: 0 <= k < |placed| && placed[k].dir == d
    decreases |placed|
  {
    if placed != [] {
      var init := placed[..|placed| - 1];
      DirOrderFacts(init);
      forall d ensures d in DirOrder(placed) <==> exists k :: 0 <= k < |placed| && placed[k].dir == d {
        if exists k :: 0 <= k < |placed| && placed[k].dir == d {
          var k :| 0 <= k < |placed| && placed[k].dir == d;
          if k < |init| { assert init[k] == placed[k]; }
        }
        if d in DirOrder(init) {
          var k :| 0 <= k < |init| && init[k].dir == d;
          assert placed[k] == init[k];
        }
      }
    }
  }

  lemma {:induction false} EntriesForAbsent(placed: seq<Placed>, dir: string)
    requires forall k :: 0 <= k < |placed| ==> placed[k].dir != dir
    ensures EntriesFor(placed, dir) == []
    decreases |placed|
  {
    if placed != [] {
      var init := placed[..|placed| - 1];
      assert forall k :: 0 <= k < |init| ==> init[k] == placed[k];
      EntriesForAbsent(init, dir);
    }
  }

  /** `groups` is the reference grouping of `placed`. */
  predicate GroupsAs(groups: seq<Group>, placed: seq<Placed>) {
    |groups| == |DirOrder(placed)| &&
    forall i :: 0 <= i < |groups| ==> groups[i] == Group(DirOrder(placed)[i], EntriesFor(placed, DirOrder(placed)[i]))
  }

  /** One more entry keeps the map equal to the reference grouping. */
  lemma AddEntryGroupsAs(groups: seq<Group>, init: seq<Placed>, p: Placed)
    requires GroupsAs(groups, init)
    ensures GroupsAs(AddEntry(groups, p), init + [p])
  {
    if p.dir in DirOrder(init) {
      AddEntryKnownDir(groups, init, p);
    } else {
      AddEntryNewDir(groups, init, p);
    }
  }

  /** An entry for a directory already in the map joins that directory's list. */
  lemma AddEntryKnownDir(groups: seq<Group>, init: seq<Placed>, p: Placed)
    requires GroupsAs(groups, init) && p.dir in DirOrder(init)
    ensures GroupsAs(AddEntry(groups, p), init + [p])
  {
    var placed := init + [p];
    assert placed[..|init|] == init;
    DirOrderFacts(init);
    var D := DirOrder(init);
    var k := IndexOfDir(groups, p.dir);
    var m :| 0 <= m < |D| && D[m] == p.dir;
    assert groups[m].dir == p.dir;
    assert k == m;
    var G' := AddEntry(groups, p);
    forall i | 0 <= i < |G'|
      ensures G'[i] == Group(DirOrder(placed)[i], EntriesFor(placed, DirOrder(placed)[i]))
    {
      if i != k { assert D[i] != p.dir; }
    }
  }

  /** An entry for a new directory opens a list at the end of the map. */
  lemma AddEntryNewDir(groups: seq<Group>, init: seq<Placed>, p: Placed)
    requires GroupsAs(groups, init) && p.dir !in DirOrder(init)
    ensures GroupsAs(AddEntry(groups, p), init + [p])
  {
    var placed := init + [p];
    assert placed[..|init|] == init;
    DirOrderFacts(init);
    assert IndexOfDir(groups, p.dir) == |groups|;
    EntriesForAbsent(init, p.dir);
  }

  /** The map holds one list per distinct directory, in first-appearance
      order, and each list is exactly that directory's entries in input
      order. */
  lemma {:induction false} GroupedIsReference(placed: seq<Placed>)
    ensures GroupsAs(Grouped(placed), placed)
    decreases |placed|
  {
    if placed != [] {
      var init := placed[..|placed| - 1];
      GroupedIsReference(init);
      AddEntryGroupsAs(Grouped(init), init, placed[|placed| - 1]);
      assert init + [placed[|placed| - 1]] == placed;
    }
  }

  /** Every directory appears once in the map. */
  lemma GroupedDirsDistinct(placed: seq<Placed>)
    ensures forall i, j :: 0 <= i < j < |Grouped(placed)| ==> Grouped(placed)[i].dir != Grouped(placed)[j].dir
  {
    GroupedIsReference(placed);
    DirOrderFacts(placed);
  }

  function TotalFiles(groups: seq<Group>): nat
    decreases |groups|
  {
    if groups == [] then 0 else TotalFiles(groups[..|groups| - 1]) + |groups[|groups| - 1].files|
  }

  lemma {:induction false} TotalFilesUpdate(groups: seq<Group>, i: int, g: Group)
    requires 0 <= i < |groups|
    ensures TotalFiles(groups[i := g]) + |groups[i].files| == TotalFiles(groups) + |g.files|
    decreases |groups|
  {
    var n := |groups| - 1;
    if i < n {
      assert groups[i := g][..n] == groups[..n][i := g];
      TotalFilesUpdate(groups[..n], i, g);
    } else {
      assert groups[i := g][..n] == groups[..n];
    }
  }

  /** Every entry of the storage lands in exactly one list: nothing is lost
      or duplicated by grouping. */
  lemma {:induction false} GroupedCount(placed: seq<Placed>)
    ensures TotalFiles(Grouped(placed)) == |placed|
    decreases |placed|
  {
    if placed != [] {
      var init := placed[..|placed| - 1];
      var p := placed[|placed| - 1];
      GroupedCount(init);
      var G := Grouped(init);
      var k := IndexOfDir(G, p.dir);
      if k < |G| {
        TotalFilesUpdate(G, k, Group(G[k].dir, G[k].files + [p.entry]));
      } else {
        assert (G + [Group(p.dir, [p.entry])])[..|G|] == G;
      }
    }
  }

  // ---------------------------------------------------------------- checking

  /** The two "yes to all" switches of the run. */
  datatype Flags = Flags(yesToAllNoExists: bool, yesToAllSizeDiffers: bool)

  /** What the check of one directory's entries carries from entry to entry. */
  datatype FileCheck = FileCheck(aborted: bool, flags: Flags, cursor: nat, validatedFiles: seq<AudioFile>, markId: int)

  /** What the check of the map carries from directory to directory. */
  datatype DirCheck = DirCheck(aborted: bool, flags: Flags, cursor: nat, validated: seq<Group>)

  /** The filesystem, the operator's answers (with the reading of "all"), and
      the `normalize` switch. */
  datatype Env = Env(fsys: FileSystem, answers: seq<string>, isAll: string -> bool, normalize: bool)

  function MaybeNormalized(normalize: bool, marks: seq<Mark>): seq<Mark> {
    if normalize then Normalized(marks) else marks
  }

  /** One entry of a directory: a missing file is skipped (asking, unless
      "all" was answered before), a size mismatch is asked about (unless
      "all" was answered before) and the entry is then kept with the real
      size; a kept entry's marks are normalised if asked to and renumbered
      from the counter. A refusal aborts. */
  function CheckFile(env: Env, dir: string, s: FileCheck, file: AudioFile): FileCheck {
    if s.aborted then s
    else
      var filePath := Join(dir, file.filepath);
      if !env.fsys.fileExists(filePath) then
        if s.flags.yesToAllNoExists then s
        else
          var reply := AskYesAllNo(env.answers, env.isAll, s.cursor);
          if reply == Refuse then s.(aborted := true, cursor := s.cursor + 1)
          else s.(cursor := s.cursor + 1, flags := s.flags.(yesToAllNoExists := reply == ProceedToAll))
      else
        var realFileSize := env.fsys.sizeOf(filePath);
        var asked := realFileSize != file.fileSize && !s.flags.yesToAllSizeDiffers;
        var reply := if asked then AskYesAllNo(env.answers, env.isAll, s.cursor) else Proceed;
        var cursor := if asked then s.cursor + 1 else s.cursor;
        if reply == Refuse then s.(aborted := true, cursor := cursor)
        else
          var normalizedMarks := MaybeNormalized(env.normalize, file.marklist);
          FileCheck(false,
            if reply == ProceedToAll then s.flags.(yesToAllSizeDiffers := true) else s.flags,
            cursor,
            s.validatedFiles + [file.(fileSize := realFileSize, marklist := Enumerate(normalizedMarks, s.markId))],
            s.markId + |normalizedMarks|)
  }

  function CheckFiles(env: Env, dir: string, s: FileCheck, files: seq<AudioFile>): FileCheck
    decreases |files|
  {
    if files == [] then s else CheckFile(env, dir, CheckFiles(env, dir, s, files[..|files| - 1]), files[|files| - 1])
  }

  /** The two directory checks: strictly inside the working directory, and
      present on disk. */
  predicate DirPasses(env: Env, workingDir: string, dir: string) {
    IsChildOfPath(env.fsys.cwd, dir, workingDir) && env.fsys.dirExists(dir)
  }

  /** One directory of the map: a directory failing a check is skipped if the
      operator agrees (else the run aborts); otherwise its entries are checked
      with a counter starting at 1 and the directory is kept with the
      surviving entries, even when none survive. */
  function CheckGroup(env: Env, workingDir: string, s: DirCheck, g: Group): DirCheck {
    if s.aborted then s
    else if !DirPasses(env, workingDir, g.dir) then
      s.(aborted := !AskYesNo(env.answers, s.cursor), cursor := s.cursor + 1)
    else
      var r := CheckFiles(env, g.dir, FileCheck(false, s.flags, s.cursor, [], 1), g.files);
      DirCheck(r.aborted, r.flags, r.cursor, if r.aborted then s.validated else s.validated + [Group(g.dir, r.validatedFiles)])
  }

  function CheckGroups(env: Env, workingDir: string, s: DirCheck, groups: seq<Group>): DirCheck
    decreases |groups|
  {
    if groups == [] then s else CheckGroup(env, workingDir, CheckGroups(env, workingDir, s, groups[..|groups| - 1]), groups[|groups| - 1])
  }

  const Start: DirCheck := DirCheck(false, Flags(false, false), 0, [])

  /** `validateDirFilesMap` as a value: the checked map, or the operator's abort. */
  function Validated(env: Env, workingDir: string, groups: seq<Group>): Outcome<seq<Group>> {
    var r := CheckGroups(env, workingDir, Start, groups);
    if r.aborted then Failed(Abort) else Done(r.validated)
  }

  /** Once aborted, later entries change nothing. */
  lemma {:induction false} CheckFilesAbortSticks(env: Env, dir: string, s: FileCheck, files: seq<AudioFile>, more: seq<AudioFile>)
    requires CheckFiles(env, dir, s, files).aborted
    ensures CheckFiles(env, dir, s, files + more) == CheckFiles(env, dir, s, files)
    decreases |more|
  {
    if more == [] {
      assert files + more == files;
    } else {
      var m := more[..|more| - 1];
      assert (files + more)[..|files + more| - 1] == files + m;
      CheckFilesAbortSticks(env, dir, s, files, m);
    }
  }

  /** Once aborted, later directories change nothing. */
  lemma {:induction false} CheckGroupsAbortSticks(env: Env, workingDir: string, s: DirCheck, groups: seq<Group>, more: seq<Group>)
    requires CheckGroups(env, workingDir, s, groups).aborted
    ensures CheckGroups(env, workingDir, s, groups + more) == CheckGroups(env, workingDir, s, groups)
    decreases |more|
  {
    if more == [] {
      assert groups + more == groups;
    } else {
      var m := more[..|more| - 1];
      assert (groups + more)[..|groups + more| - 1] == groups + m;
      CheckGroupsAbortSticks(env, workingDir, s, groups, m);
    }
  }

  /** An abort after the first `j` entries is the result of the whole list. */
  lemma CheckFilesAbortedAt(env: Env, dir: string, s: FileCheck, files: seq<AudioFile>, j: int)
    requires 0 <= j <= |files| && CheckFiles(env, dir, s, files[..j]).aborted
    ensures CheckFiles(env, dir, s, files) == CheckFiles(env, dir, s, files[..j])
  {
    CheckFilesAbortSticks(env, dir, s, files[..j], files[j..]);
    assert files[..j] + files[j..] == files;
  }

  /** An abort after the first `i` directories is the result of the whole map. */
  lemma CheckGroupsAbortedAt(env: Env, workingDir: string, s: DirCheck, groups: seq<Group>, i: int)
    requires 0 <= i <= |groups| && CheckGroups(env, workingDir, s, groups[..i]).aborted
    ensures CheckGroups(env, workingDir, s, groups) == CheckGroups(env, workingDir, s, groups[..i])
  {
    CheckGroupsAbortSticks(env, workingDir, s, groups[..i], groups[i..]);
    assert groups[..i] + groups[i..] == groups;
  }

  lemma CheckFilesSnoc(env: Env, dir: string, s: FileCheck, files: seq<AudioFile>, j: int)
    requires 0 <= j < |files|
    ensures CheckFiles(env, dir, s, files[..j + 1]) == CheckFile(env, dir, CheckFiles(env, dir, s, files[..j]), files[j])
  {
    assert files[..j + 1][..j] == files[..j];
  }

  lemma CheckGroupsSnoc(env: Env, workingDir: string, s: DirCheck, groups: seq<Group>, i: int)
    requires 0 <= i < |groups|
    ensures CheckGroups(env, workingDir, s, groups[..i + 1]) == CheckGroup(env, workingDir, CheckGroups(env, workingDir, s, groups[..i]), groups[i])
  {
    assert groups[..i + 1][..i] == groups[..i];
  }

  /** The body of the inner loop of `validateDirFilesMap` for one entry. */
  method CheckEntry(env: Env, dir: string, s: FileCheck, file: AudioFile) returns (t: FileCheck)
    requires !s.aborted
    ensures t == CheckFile(env, dir, s, file)
  {
    var yesToAllNoExists, yesToAllSizeDiffers := s.flags.yesToAllNoExists, s.flags.yesToAllSizeDiffers;
    var cursor := s.cursor;
    var filePath := Join(dir, file.filepath);
    if !env.fsys.fileExists(filePath) {
      if !yesToAllNoExists {
        var reply := AskYesAllNo(env.answers, env.isAll, cursor);
        cursor := cursor + 1;
        if reply == Refuse {
          return s.(aborted := true, cursor := cursor);
        }
        if reply == ProceedToAll {
          yesToAllNoExists := true;
        }
      }
      return s.(flags := Flags(yesToAllNoExists, yesToAllSizeDiffers), cursor := cursor);
    }
    var realFileSize := env.fsys.sizeOf(filePath);
    if realFileSize != file.fileSize && !yesToAllSizeDiffers {
      var reply := AskYesAllNo(env.answers, env.isAll, cursor);
      cursor := cursor + 1;
      if reply == Refuse {
        return s.(aborted := true, cursor := cursor);
      }
      if reply == ProceedToAll {
        yesToAllSizeDiffers := true;
      }
    }
    var normalizedMarks := file.marklist;
    if env.normalize {
      normalizedMarks := NormalizeMarks(file.marklist);
    }
    t := FileCheck(false, Flags(yesToAllNoExists, yesToAllSizeDiffers), cursor,
      s.validatedFiles + [file.(fileSize := realFileSize, marklist := Enumerate(normalizedMarks, s.markId))],
      s.markId + |normalizedMarks|);
  }

  /** The inner loop of `validateDirFilesMap`: the entries of one directory
      that passed its checks, with the mark counter starting at 1. A refusal
      stops at once. */
  method ValidateFiles(env: Env, dir: string, files: seq<AudioFile>, flags: Flags, cursor: nat) returns (r: FileCheck)
    ensures r == CheckFiles(env, dir, FileCheck(false, flags, cursor, [], 1), files)
  {
    var start := FileCheck(false, flags, cursor, [], 1);
    r := start;
    var j := 0;
    while j < |files|
      invariant 0 <= j <= |files|
      invariant r == CheckFiles(env, dir, start, files[..j]) && !r.aborted
    {
      CheckFilesSnoc(env, dir, start, files, j);
      r := CheckEntry(env, dir, r, files[j]);
      if r.aborted {
        CheckFilesAbortedAt(env, dir, start, files, j + 1);
        return;
      }
      j := j + 1;
    }
    assert files[..j] == files;
  }

  /** `validateDirFilesMap`. */
  method ValidateDirFilesMap(env: Env, dirFileMap: seq<Group>, workingDir: string) returns (r: Outcome<seq<Group>>)
    ensures r == Validated(env, workingDir, dirFileMap)
  {
    var validatedDirFilesMap: seq<Group> := [];
    var flags := Flags(false, false);
    var cursor := 0;
    var i := 0;
    while i < |dirFileMap|
      invariant 0 <= i <= |dirFileMap|
      invariant CheckGroups(env, workingDir, Start, dirFileMap[..i]) == DirCheck(false, flags, cursor, validatedDirFilesMap)
    {
      var dir, files := dirFileMap[i].dir, dirFileMap[i].files;
      CheckGroupsSnoc(env, workingDir, Start, dirFileMap, i);
      if !IsChildOfPath(env.fsys.cwd, dir, workingDir) || !env.fsys.dirExists(dir) {
        var proceed := AskYesNo(env.answers, cursor);
        cursor := cursor + 1;
        if !proceed {
          CheckGroupsAbortedAt(env, workingDir, Start, dirFileMap, i + 1);
          return Failed(Abort);
        }
      } else {
        var checked := ValidateFiles(env, dir, files, flags, cursor);
        if checked.aborted {
          CheckGroupsAbortedAt(env, workingDir, Start, dirFileMap, i + 1);
          return Failed(Abort);
        }
        flags, cursor := checked.flags, checked.cursor;
        validatedDirFilesMap := validatedDirFilesMap + [Group(dir, checked.validatedFiles)];
      }
      i := i + 1;
    }
    assert dirFileMap[..i] == dirFileMap;
    return Done(validatedDirFilesMap);
  }

  // ---------------------------------------------------------------- what the answers do not change

  /** The entries of a directory that survive, with the real size and the
      marks normalised if asked to, before renumbering. */
  function Kept(env: Env, dir: string, files: seq<AudioFile>): seq<AudioFile>
    decreases |files|
  {
    if files == [] then []
    else
      var f := files[|files| - 1];
      var filePath := Join(dir, f.filepath);
      Kept(env, dir, files[..|files| - 1])
      + (if env.fsys.fileExists(filePath)
         then [f.(fileSize := env.fsys.sizeOf(filePath), marklist := MaybeNormalized(env.normalize, f.marklist))]
         else [])
  }

  /** The directories that pass the checks, each with its kept entries
      renumbered from 1. No answer appears here. */
  function Survivors(env: Env, workingDir: string, groups: seq<Group>): seq<Group>
    decreases |groups|
  {
    if groups == [] then []
    else
      var g := groups[|groups| - 1];
      Survivors(env, workingDir, groups[..|groups| - 1])
      + (if DirPasses(env, workingDir, g.dir) then [Group(g.dir, RenumberFiles(Kept(env, g.dir, g.files), 1))] else [])
  }

  /** One entry, when the check goes on: kept with the real size and its
      marks renumbered from the counter if its file exists, dropped if not. */
  lemma CheckFileKeeps(env: Env, dir: string, m: FileCheck, f: AudioFile)
    requires !m.aborted
    ensures var r := CheckFile(env, dir, m, f);
      var filePath := Join(dir, f.filepath);
      var marks := MaybeNormalized(env.normalize, f.marklist);
      !r.aborted ==>
        if env.fsys.fileExists(filePath) then
          && r.validatedFiles == m.validatedFiles + [f.(fileSize := env.fsys.sizeOf(filePath), marklist := Enumerate(marks, m.markId))]
          && r.markId == m.markId + |marks|
        else r.validatedFiles == m.validatedFiles && r.markId == m.markId
  {
  }

  /** When a directory's check does not abort, it keeps exactly the entries
      whose file exists, numbered on from the counter. */
  lemma {:induction false} CheckFilesSound(env: Env, dir: string, s: FileCheck, files: seq<AudioFile>)
    requires !s.aborted
    ensures var r := CheckFiles(env, dir, s, files);
      !r.aborted ==>
        && r.validatedFiles == s.validatedFiles + RenumberFiles(Kept(env, dir, files), s.markId)
        && r.markId == s.markId + |AllMarks(Kept(env, dir, files))|
    decreases |files|
  {
    if files != [] {
      var init := files[..|files| - 1];
      var f := files[|files| - 1];
      var m := CheckFiles(env, dir, s, init);
      var r := CheckFile(env, dir, m, f);
      assert CheckFiles(env, dir, s, files) == r;
      if !m.aborted && !r.aborted {
        CheckFilesSound(env, dir, s, init);
        CheckFileKeeps(env, dir, m, f);
        KeptSnoc(env, dir, files);
        var k := Kept(env, dir, init);
        var filePath := Join(dir, f.filepath);
        if env.fsys.fileExists(filePath) {
          var size, marks := env.fsys.sizeOf(filePath), MaybeNormalized(env.normalize, f.marklist);
          var kf := f.(fileSize := size, marklist := marks);
          assert r.validatedFiles == m.validatedFiles + [kf.(marklist := Enumerate(kf.marklist, m.markId))];
          RenumberStep(s.validatedFiles, k, kf, s.markId, m.validatedFiles, m.markId, r.validatedFiles);
        } else {
          assert Kept(env, dir, files) == k;
        }
      }
    }
  }

  lemma KeptSnoc(env: Env, dir: string, files: seq<AudioFile>)
    requires files != []
    ensures var f := files[|files| - 1];
      var filePath := Join(dir, f.filepath);
      Kept(env, dir, files) == Kept(env, dir, files[..|files| - 1])
        + (if env.fsys.fileExists(filePath)
           then [f.(fileSize := env.fsys.sizeOf(filePath), marklist := MaybeNormalized(env.normalize, f.marklist))]
           else [])
  {
  }

  /** One directory, when the run goes on: kept with its checked entries if it
      passes the directory checks, skipped if not. */
  lemma CheckGroupKeeps(env: Env, workingDir: string, m: DirCheck, g: Group)
    requires !m.aborted
    ensures var r := CheckGroup(env, workingDir, m, g);
      !r.aborted ==>
        if DirPasses(env, workingDir, g.dir) then
          var c := CheckFiles(env, g.dir, FileCheck(false, m.flags, m.cursor, [], 1), g.files);
          !c.aborted && r.validated == m.validated + [Group(g.dir, c.validatedFiles)]
        else r.validated == m.validated
  {
  }

  /** The central fact of the command: the operator's answers only decide
      whether the run aborts. When it does not, the checked map is the
      answer-free reference. */
  lemma {:induction false} CheckGroupsSound(env: Env, workingDir: string, s: DirCheck, groups: seq<Group>)
    requires !s.aborted
    ensures var r := CheckGroups(env, workingDir, s, groups);
      !r.aborted ==> r.validated == s.validated + Survivors(env, workingDir, groups)
    decreases |groups|
  {
    if groups != [] {
      var init := groups[..|groups| - 1];
      var g := groups[|groups| - 1];
      var m := CheckGroups(env, workingDir, s, init);
      var r := CheckGroup(env, workingDir, m, g);
      assert CheckGroups(env, workingDir, s, groups) == r;
      if !m.aborted && !r.aborted {
        CheckGroupsSound(env, workingDir, s, init);
        CheckGroupKeeps(env, workingDir, m, g);
        if DirPasses(env, workingDir, g.dir) {
          var c := CheckFiles(env, g.dir, FileCheck(false, m.flags, m.cursor, [], 1), g.files);
          CheckFilesSound(env, g.dir, FileCheck(false, m.flags, m.cursor, [], 1), g.files);
          var kept := Group(g.dir, RenumberFiles(Kept(env, g.dir, g.files), 1));
          assert [] + kept.files == kept.files;
          assert Survivors(env, workingDir, groups) == Survivors(env, workingDir, init) + [kept];
          AppendOne(s.validated, Survivors(env, workingDir, init), m.validated, kept, r.validated);
        } else {
          assert Survivors(env, workingDir, groups) == Survivors(env, workingDir, init);
        }
      }
    }
  }

  lemma ValidatedSound(env: Env, workingDir: string, groups: seq<Group>)
    ensures Validated(env, workingDir, groups).Done? ==>
      Validated(env, workingDir, groups).value == Survivors(env, workingDir, groups)
    ensures Validated(env, workingDir, groups).Failed? ==> Validated(env, workingDir, groups).error == Abort
  {
    CheckGroupsSound(env, workingDir, Start, groups);
  }

  /** So two operators who both let the run finish get the same result. */
  lemma AnswersOnlyDecideAbort(env: Env, answers: seq<string>, isAll: string -> bool, workingDir: string, groups: seq<Group>)
    requires Validated(env, workingDir, groups).Done?
    requires Validated(env.(answers := answers, isAll := isAll), workingDir, groups).Done?
    ensures Validated(env, workingDir, groups) == Validated(env.(answers := answers, isAll := isAll), workingDir, groups)
  {
    var env' := env.(answers := answers, isAll := isAll);
    ValidatedSound(env, workingDir, groups);
    ValidatedSound(env', workingDir, groups);
    SurvivorsIgnoreAnswers(env, env', workingDir, groups);
  }

  lemma {:induction false} SurvivorsIgnoreAnswers(env: Env, env': Env, workingDir: string, groups: seq<Group>)
    requires env'.fsys == env.fsys && env'.normalize == env.normalize
    ensures Survivors(env, workingDir, groups) == Survivors(env', workingDir, groups)
    decreases |groups|
  {
    if groups != [] {
      SurvivorsIgnoreAnswers(env, env', workingDir, groups[..|groups| - 1]);
      KeptIgnoresAnswers(env, env', groups[|groups| - 1].dir, groups[|groups| - 1].files);
    }
  }

  lemma {:induction false} KeptIgnoresAnswers(env: Env, env': Env, dir: string, files: seq<AudioFile>)
    requires env'.fsys == env.fsys && env'.normalize == env.normalize
    ensures Kept(env, dir, files) == Kept(env', dir, files)
    decreases |files|
  {
    if files != [] {
      KeptIgnoresAnswers(env, env', dir, files[..|files| - 1]);
    }
  }

  /** Within every written storage the mark ids run 1, 2, 3, ... across its
      entries in order. */
  lemma SurvivorIdsContiguous(env: Env, workingDir: string, groups: seq<Group>, i: int)
    requires 0 <= i < |Survivors(env, workingDir, groups)|
    ensures NumberedFrom(AllMarks(Survivors(env, workingDir, groups)[i].files), 1)
  {
    SurvivorsShape(env, workingDir, groups, i);
    var g := Survivors(env, workingDir, groups)[i];
    RenumberFilesNumbered(Kept(env, g.dir, SurvivorSource(env, workingDir, groups, i).files), 1);
  }

  /** The input directory a surviving directory comes from. */
  function SurvivorSource(env: Env, workingDir: string, groups: seq<Group>, i: int): (g: Group)
    requires 0 <= i < |Survivors(env, workingDir, groups)|
    decreases |groups|
  {
    var init := groups[..|groups| - 1];
    if i < |Survivors(env, workingDir, init)| then SurvivorSource(env, workingDir, init, i)
    else groups[|groups| - 1]
  }

  lemma {:induction false} SurvivorsShape(env: Env, workingDir: string, groups: seq<Group>, i: int)
    requires 0 <= i < |Survivors(env, workingDir, groups)|
    ensures var src := SurvivorSource(env, workingDir, groups, i);
      && src in groups
      && DirPasses(env, workingDir, src.dir)
      && Survivors(env, workingDir, groups)[i] == Group(src.dir, RenumberFiles(Kept(env, src.dir, src.files), 1))
    decreases |groups|
  {
    var init := groups[..|groups| - 1];
    if i < |Survivors(env, workingDir, init)| {
      SurvivorsShape(env, workingDir, init, i);
      assert SurvivorSource(env, workingDir, init, i) in init;
    }
  }

  /** The "all" switches only ever go on... */
  lemma {:induction false} CheckFilesFlagsGrow(env: Env, dir: string, s: FileCheck, files: seq<AudioFile>)
    ensures var r := CheckFiles(env, dir, s, files);
      && (s.flags.yesToAllNoExists ==> r.flags.yesToAllNoExists)
      && (s.flags.yesToAllSizeDiffers ==> r.flags.yesToAllSizeDiffers)
      && r.cursor >= s.cursor
    decreases |files|
  {
    if files != [] {
      CheckFilesFlagsGrow(env, dir, s, files[..|files| - 1]);
    }
  }

  lemma {:induction false} CheckGroupsFlagsGrow(env: Env, workingDir: string, s: DirCheck, groups: seq<Group>)
    ensures var r := CheckGroups(env, workingDir, s, groups);
      && (s.flags.yesToAllNoExists ==> r.flags.yesToAllNoExists)
      && (s.flags.yesToAllSizeDiffers ==> r.flags.yesToAllSizeDiffers)
      && r.cursor >= s.cursor
    decreases |groups|
  {
    if groups != [] {
      var m := CheckGroups(env, workingDir, s, groups[..|groups| - 1]);
      CheckGroupsFlagsGrow(env, workingDir, s, groups[..|groups| - 1]);
      var g := groups[|groups| - 1];
      if !m.aborted && DirPasses(env, workingDir, g.dir) {
        CheckFilesFlagsGrow(env, g.dir, FileCheck(false, m.flags, m.cursor, [], 1), g.files);
      }
    }
  }

  /** ...and once both are on, the entries of any later directory are checked
      without a single question and without abort. */
  lemma {:induction false} NoQuestionsAfterAll(env: Env, dir: string, s: FileCheck, files: seq<AudioFile>)
    requires !s.aborted && s.flags == Flags(true, true)
    ensures var r := CheckFiles(env, dir, s, files);
      !r.aborted && r.cursor == s.cursor && r.flags == s.flags
    decreases |files|
  {
    if files != [] {
      NoQuestionsAfterAll(env, dir, s, files[..|files| - 1]);
    }
  }

  /** The two switches are independent. A missing file, once its switch is
      on, is passed over without a question, whatever the other switch. */
  lemma MissingSkippedSilently(env: Env, dir: string, s: FileCheck, file: AudioFile)
    requires !s.aborted && s.flags.yesToAllNoExists && !env.fsys.fileExists(Join(dir, file.filepath))
    ensures CheckFile(env, dir, s, file) == s
  {
  }

  /** A size mismatch, once its switch is on, is kept without a question,
      whatever the other switch; the entry takes the real size. */
  lemma MismatchKeptSilently(env: Env, dir: string, s: FileCheck, file: AudioFile)
    requires !s.aborted && s.flags.yesToAllSizeDiffers
    requires var path := Join(dir, file.filepath);
      env.fsys.fileExists(path) && env.fsys.sizeOf(path) != file.fileSize
    ensures var r := CheckFile(env, dir, s, file);
      && !r.aborted && r.cursor == s.cursor && r.flags == s.flags
      && |r.validatedFiles| == |s.validatedFiles| + 1
      && r.validatedFiles[|s.validatedFiles|].fileSize == env.fsys.sizeOf(Join(dir, file.filepath))
  {
  }

  /** Each kind of question is still asked while only the other switch is
      on: a missing file or a size mismatch whose own switch is off takes
      one answer. */
  lemma OwnSwitchOffAsks(env: Env, dir: string, s: FileCheck, file: AudioFile)
    requires !s.aborted
    requires var path := Join(dir, file.filepath);
      if env.fsys.fileExists(path) then env.fsys.sizeOf(path) != file.fileSize && !s.flags.yesToAllSizeDiffers
      else !s.flags.yesToAllNoExists
    ensures CheckFile(env, dir, s, file).cursor == s.cursor + 1
  {
  }

  /** An answer of "all" turns on only the switch of the question it
      answers: a switch newly on after one entry was turned on by that
      entry's own kind of discrepancy. */
  lemma SwitchOfOwnKind(env: Env, dir: string, s: FileCheck, file: AudioFile)
    ensures var r := CheckFile(env, dir, s, file);
      var path := Join(dir, file.filepath);
      && (r.flags.yesToAllNoExists != s.flags.yesToAllNoExists ==> !env.fsys.fileExists(path))
      && (r.flags.yesToAllSizeDiffers != s.flags.yesToAllSizeDiffers ==>
            env.fsys.fileExists(path) && env.fsys.sizeOf(path) != file.fileSize)
  {
  }

  /** The same over a directory's entries: a switch that comes on was
      turned on by an entry with its kind of discrepancy. */
  lemma {:induction false} SwitchesOfOwnKind(env: Env, dir: string, s: FileCheck, files: seq<AudioFile>)
    ensures var r := CheckFiles(env, dir, s, files);
      && (r.flags.yesToAllNoExists != s.flags.yesToAllNoExists ==>
            exists f :: f in files && !env.fsys.fileExists(Join(dir, f.filepath)))
      && (r.flags.yesToAllSizeDiffers != s.flags.yesToAllSizeDiffers ==>
            exists f :: f in files && env.fsys.fileExists(Join(dir, f.filepath))
              && env.fsys.sizeOf(Join(dir, f.filepath)) != f.fileSize)
    decreases |files|
  {
    if files != [] {
      var init, f := files[..|files| - 1], files[|files| - 1];
      var m := CheckFiles(env, dir, s, init);
      SwitchesOfOwnKind(env, dir, s, init);
      SwitchOfOwnKind(env, dir, m, f);
      assert f in files;
      assert forall g :: g in init ==> g in files;
    }
  }

  // ---------------------------------------------------------------- writing

  /** The storage written for one directory: portable (no external storage
      directory), next to the audio files. */
  function NewStorage(g: Group): Write {
    StorageWrite(Join(g.dir, LocalMarksFilename), Storage("", g.files))
  }

  /** One storage per group, in the order of the groups. */
  function NewStorages(groups: seq<Group>): (r: seq<Write>)
    ensures |r| == |groups|
    decreases |groups|
  {
    if groups == [] then []
    else NewStorages(groups[..|groups| - 1]) + [NewStorage(groups[|groups| - 1])]
  }

  /** `writeNewStorages`. */
  method WriteNewStorages(dirFilesMap: seq<Group>) returns (writes: seq<Write>)
    ensures writes == NewStorages(dirFilesMap)
  {
    writes := [];
    var i := 0;
    while i < |dirFilesMap|
      invariant 0 <= i <= |dirFilesMap|
      invariant writes == NewStorages(dirFilesMap[..i])
    {
      var newStorage := Storage("", dirFilesMap[i].files);
      var storageFilePath := Join(dirFilesMap[i].dir, LocalMarksFilename);
      NewStoragesSnoc(dirFilesMap, i);
      writes := writes + [StorageWrite(storageFilePath, newStorage)];
      i := i + 1;
    }
    assert dirFilesMap[..i] == dirFilesMap;
  }

  lemma NewStoragesSnoc(groups: seq<Group>, i: int)
    requires 0 <= i < |groups|
    ensures NewStorages(groups[..i + 1]) == NewStorages(groups[..i]) + [NewStorage(groups[i])]
  {
    assert groups[..i + 1][..i] == groups[..i];
  }

  /** The storage lands inside its directory, under the local storage name. */
  lemma NewStorageLocation(cwd: string, x: string, files: seq<AudioFile>)
    ensures var dir := Resolve(cwd, x); var path := NewStorage(Group(dir, files)).path;
      Dirname(path) == dir && Basename(path) == LocalMarksFilename
  {
    assert IsName(LocalMarksFilename);
    JoinedNameParts(ResolvedPath(cwd, x).segs, LocalMarksFilename);
  }

  // ---------------------------------------------------------------- the command

  /** The whole command as a value: the files written, or the abort (in which
      case nothing is written, as writing starts only after every directory
      was checked). */
  function SplitRun(env: Env, storage: Storage, inputFilePath: string, phoneUserDir: string): Outcome<seq<Write>> {
    var cwd := env.fsys.cwd;
    var phone := AbsolutePhoneUserDir(cwd, phoneUserDir, storage.externalStorageDirectory);
    var workingDir := WorkingDir(cwd, inputFilePath);
    var groups := Grouped(PlaceAll(cwd, workingDir, phone, storage.files));
    match Validated(env, workingDir, groups)
    case Done(validated) => Done(NewStorages(validated))
    case Failed(e) => Failed(e)
  }

  /** The default export, given the parsed storage. */
  method SplitCommand(env: Env, storage: Storage, inputFilePath: string, phoneUserDir: string)
    returns (r: Outcome<seq<Write>>)
    ensures r == SplitRun(env, storage, inputFilePath, phoneUserDir)
  {
    var cwd := env.fsys.cwd;
    var absolutePhoneUserDir := AbsolutePhoneUserDir(cwd, phoneUserDir, storage.externalStorageDirectory);
    var workingDir := WorkingDir(cwd, inputFilePath);
    var dirFilesMap := BuildDirFilesMap(cwd, storage, absolutePhoneUserDir, workingDir);
    var validated := ValidateDirFilesMap(env, dirFilesMap, workingDir);
    if validated.Failed? {
      return Failed(validated.error);
    }
    var writes := WriteNewStorages(validated.value);
    return Done(writes);
  }

  /** What the command writes when it finishes: one storage per directory
      that passes the checks, holding the surviving entries renumbered from 1;
      otherwise it aborts and writes nothing. */
  lemma SplitRunSound(env: Env, storage: Storage, inputFilePath: string, phoneUserDir: string)
    ensures var r := SplitRun(env, storage, inputFilePath, phoneUserDir);
      var cwd := env.fsys.cwd;
      var workingDir := WorkingDir(cwd, inputFilePath);
      var phone := AbsolutePhoneUserDir(cwd, phoneUserDir, storage.externalStorageDirectory);
      var groups := Grouped(PlaceAll(cwd, workingDir, phone, storage.files));
      && (r.Done? ==> r.value == NewStorages(Survivors(env, workingDir, groups)))
      && (r.Failed? ==> r.error == Abort)
  {
    var cwd := env.fsys.cwd;
    var workingDir := WorkingDir(cwd, inputFilePath);
    var phone := AbsolutePhoneUserDir(cwd, phoneUserDir, storage.externalStorageDirectory);
    ValidatedSound(env, workingDir, Grouped(PlaceAll(cwd, workingDir, phone, storage.files)));
  }
}
