/** The earlier `split` (src/split.ts): the same grouping and writing as the
    `split` command, with a stricter check: every discrepancy is asked about
    with a plain yes/no, a missing file or a file of another size is dropped,
    and the kept entries are written unchanged. */
module LegacySplit {
  import opened Model
  import opened Paths
  import opened Utils
  import opened Prompt
  import Split
  import MarkList

  /** What the check of one directory's entries carries from entry to entry. */
  datatype FileCheck = FileCheck(aborted: bool, cursor: nat, validatedFiles: seq<AudioFile>)

  /** What the check of the map carries from directory to directory. */
  datatype DirCheck = DirCheck(aborted: bool, cursor: nat, validated: seq<Split.Group>)

  /** One entry: kept as it is when its file exists with the recorded size;
      otherwise the operator is asked, and the entry is dropped or the run
      aborts. */
  function CheckFile(fsys: FileSystem, answers: seq<string>, dir: string, s: FileCheck, file: AudioFile): FileCheck {
    if s.aborted then s
    else
      var filePath := Join(dir, file.filepath);
      if !fsys.fileExists(filePath) || fsys.sizeOf(filePath) != file.fileSize then
        s.(aborted := !AskYesNo(answers, s.cursor), cursor := s.cursor + 1)
      else s.(validatedFiles := s.validatedFiles + [file])
  }

  function CheckFiles(fsys: FileSystem, answers: seq<string>, dir: string, s: FileCheck, files: seq<AudioFile>): FileCheck
    decreases |files|
  {
    if files == [] then s else CheckFile(fsys, answers, dir, CheckFiles(fsys, answers, dir, s, files[..|files| - 1]), files[|files| - 1])
  }

  predicate DirPasses(fsys: FileSystem, workingDir: string, dir: string) {
    IsChildOfPath(fsys.cwd, dir, workingDir) && fsys.dirExists(dir)
  }

  /** One directory: as in the `split` command, a directory failing a check
      is skipped or the run aborts; otherwise it is kept with its checked
      entries. */
  function CheckGroup(fsys: FileSystem, answers: seq<string>, workingDir: string, s: DirCheck, g: Split.Group): DirCheck {
    if s.aborted then s
    else if !DirPasses(fsys, workingDir, g.dir) then
      s.(aborted := !AskYesNo(answers, s.cursor), cursor := s.cursor + 1)
    else
      var r := CheckFiles(fsys, answers, g.dir, FileCheck(false, s.cursor, []), g.files);
      DirCheck(r.aborted, r.cursor, if r.aborted then s.validated else s.validated + [Split.Group(g.dir, r.validatedFiles)])
  }

  function CheckGroups(fsys: FileSystem, answers: seq<string>, workingDir: string, s: DirCheck, groups: seq<Split.Group>): DirCheck
    decreases |groups|
  {
    if groups == [] then s else CheckGroup(fsys, answers, workingDir, CheckGroups(fsys, answers, workingDir, s, groups[..|groups| - 1]), groups[|groups| - 1])
  }

  function Validated(fsys: FileSystem, answers: seq<string>, workingDir: string, groups: seq<Split.Group>): Outcome<seq<Split.Group>> {
    var r := CheckGroups(fsys, answers, workingDir, DirCheck(false, 0, []), groups);
    if r.aborted then Failed(Abort) else Done(r.validated)
  }

  lemma {:induction false} CheckFilesAbortSticks(fsys: FileSystem, answers: seq<string>, dir: string, s: FileCheck, files: seq<AudioFile>, more: seq<AudioFile>)
    requires CheckFiles(fsys, answers, dir, s, files).aborted
    ensures CheckFiles(fsys, answers, dir, s, files + more) == CheckFiles(fsys, answers, dir, s, files)
    decreases |more|
  {
    if more == [] {
      assert files + more == files;
    } else {
      var m := more[..|more| - 1];
      assert (files + more)[..|files + more| - 1] == files + m;
      CheckFilesAbortSticks(fsys, answers, dir, s, files, m);
    }
  }

  lemma {:induction false} CheckGroupsAbortSticks(fsys: FileSystem, answers: seq<string>, workingDir: string, s: DirCheck, groups: seq<Split.Group>, more: seq<Split.Group>)
    requires CheckGroups(fsys, answers, workingDir, s, groups).aborted
    ensures CheckGroups(fsys, answers, workingDir, s, groups + more) == CheckGroups(fsys, answers, workingDir, s, groups)
    decreases |more|
  {
    if more == [] {
      assert groups + more == groups;
    } else {
      var m := more[..|more| - 1];
      assert (groups + more)[..|groups + more| - 1] == groups + m;
      CheckGroupsAbortSticks(fsys, answers, workingDir, s, groups, m);
    }
  }

  lemma CheckFilesSnoc(fsys: FileSystem, answers: seq<string>, dir: string, s: FileCheck, files: seq<AudioFile>, j: int)
    requires 0 <= j < |files|
    ensures CheckFiles(fsys, answers, dir, s, files[..j + 1]) == CheckFile(fsys, answers, dir, CheckFiles(fsys, answers, dir, s, files[..j]), files[j])
  {
    assert files[..j + 1][..j] == files[..j];
  }

  lemma CheckGroupsSnoc(fsys: FileSystem, answers: seq<string>, workingDir: string, s: DirCheck, groups: seq<Split.Group>, i: int)
    requires 0 <= i < |groups|
    ensures CheckGroups(fsys, answers, workingDir, s, groups[..i + 1])
      == CheckGroup(fsys, answers, workingDir, CheckGroups(fsys, answers, workingDir, s, groups[..i]), groups[i])
  {
    assert groups[..i + 1][..i] == groups[..i];
  }

  /** Once the check has aborted, the whole check aborts. */
  lemma AbortedAt(fsys: FileSystem, answers: seq<string>, workingDir: string, groups: seq<Split.Group>, n: int)
    requires 0 <= n <= |groups|
    requires CheckGroups(fsys, answers, workingDir, DirCheck(false, 0, []), groups[..n]).aborted
    ensures Validated(fsys, answers, workingDir, groups) == Failed(Abort)
  {
    CheckGroupsAbortSticks(fsys, answers, workingDir, DirCheck(false, 0, []), groups[..n], groups[n..]);
    assert groups[..n] + groups[n..] == groups;
  }

  /** One pass of the inner loop of `validateDirFilesMap`: an entry whose
      file is missing or has another size is asked about, any other is kept. */
  method ValidateFile(fsys: FileSystem, answers: seq<string>, dir: string, file: AudioFile,
                      cursor: nat, validatedFiles: seq<AudioFile>) returns (s: FileCheck)
    ensures s == CheckFile(fsys, answers, dir, FileCheck(false, cursor, validatedFiles), file)
  {
    var filePath := Join(dir, file.filepath);
    if !fsys.fileExists(filePath) || fsys.sizeOf(filePath) != file.fileSize {
      var proceed := AskYesNo(answers, cursor);
      return FileCheck(!proceed, cursor + 1, validatedFiles);
    }
    return FileCheck(false, cursor, validatedFiles + [file]);
  }

  /** Once the check of the entries has aborted, it stays aborted. */
  lemma FilesAbortedAt(fsys: FileSystem, answers: seq<string>, dir: string, s: FileCheck, files: seq<AudioFile>, n: int)
    requires 0 <= n <= |files|
    requires CheckFiles(fsys, answers, dir, s, files[..n]).aborted
    ensures CheckFiles(fsys, answers, dir, s, files) == CheckFiles(fsys, answers, dir, s, files[..n])
  {
    CheckFilesAbortSticks(fsys, answers, dir, s, files[..n], files[n..]);
    assert files[..n] + files[n..] == files;
  }

  /** The inner loop of `validateDirFilesMap`. */
  method ValidateFiles(fsys: FileSystem, answers: seq<string>, dir: string, files: seq<AudioFile>, cursor: nat) returns (r: FileCheck)
    ensures r == CheckFiles(fsys, answers, dir, FileCheck(false, cursor, []), files)
  {
    ghost var start := FileCheck(false, cursor, []);
    var cursor := cursor;
    var validatedFiles: seq<AudioFile> := [];
    var j := 0;
    while j < |files|
      invariant 0 <= j <= |files|
      invariant CheckFiles(fsys, answers, dir, start, files[..j]) == FileCheck(false, cursor, validatedFiles)
    {
      var s := ValidateFile(fsys, answers, dir, files[j], cursor, validatedFiles);
      CheckFilesSnoc(fsys, answers, dir, start, files, j);
      if s.aborted {
        FilesAbortedAt(fsys, answers, dir, start, files, j + 1);
        return s;
      }
      cursor, validatedFiles := s.cursor, s.validatedFiles;
      j := j + 1;
    }
    assert files[..j] == files;
    r := FileCheck(false, cursor, validatedFiles);
  }

  /** One pass of the outer loop of `validateDirFilesMap`: the directory
      checks, then the entries of a directory that passes them. */
  method ValidateGroup(fsys: FileSystem, answers: seq<string>, workingDir: string, g: Split.Group,
                       cursor: nat, validated: seq<Split.Group>) returns (s: DirCheck)
    ensures s == CheckGroup(fsys, answers, workingDir, DirCheck(false, cursor, validated), g)
  {
    var dir, files := g.dir, g.files;
    if !IsChildOfPath(fsys.cwd, dir, workingDir) || !fsys.dirExists(dir) {
      var proceed := AskYesNo(answers, cursor);
      return DirCheck(!proceed, cursor + 1, validated);
    }
    var checked := ValidateFiles(fsys, answers, dir, files, cursor);
    if checked.aborted {
      return DirCheck(true, checked.cursor, validated);
    }
    return DirCheck(false, checked.cursor, validated + [Split.Group(dir, checked.validatedFiles)]);
  }

  /** `validateDirFilesMap`. */
  method ValidateDirFilesMap(fsys: FileSystem, answers: seq<string>, dirFileMap: seq<Split.Group>, workingDir: string)
    returns (r: Outcome<seq<Split.Group>>)
    ensures r == Validated(fsys, answers, workingDir, dirFileMap)
  {
    var validatedDirFilesMap: seq<Split.Group> := [];
    var cursor := 0;
    var i := 0;
    while i < |dirFileMap|
      invariant 0 <= i <= |dirFileMap|
      invariant CheckGroups(fsys, answers, workingDir, DirCheck(false, 0, []), dirFileMap[..i])
        == DirCheck(false, cursor, validatedDirFilesMap)
    {
      var s := ValidateGroup(fsys, answers, workingDir, dirFileMap[i], cursor, validatedDirFilesMap);
      CheckGroupsSnoc(fsys, answers, workingDir, DirCheck(false, 0, []), dirFileMap, i);
      if s.aborted {
        AbortedAt(fsys, answers, workingDir, dirFileMap, i + 1);
        return Failed(Abort);
      }
      cursor, validatedDirFilesMap := s.cursor, s.validated;
      i := i + 1;
    }
    assert dirFileMap[..i] == dirFileMap;
    return Done(validatedDirFilesMap);
  }

  // ---------------------------------------------------------------- what the answers do not change

  /** The entries whose file exists with the recorded size, unchanged. */
  function Matching(fsys: FileSystem, dir: string, files: seq<AudioFile>): seq<AudioFile>
    decreases |files|
  {
    if files == [] then []
    else
      var f := files[|files| - 1];
      Matching(fsys, dir, files[..|files| - 1]) + (if Matches(fsys, dir, f) then [f] else [])
  }

  /** The entry's file exists with the recorded size. */
  predicate Matches(fsys: FileSystem, dir: string, f: AudioFile) {
    fsys.fileExists(Join(dir, f.filepath)) && fsys.sizeOf(Join(dir, f.filepath)) == f.fileSize
  }

  /** The directories that pass the checks, each with its matching entries. */
  function Survivors(fsys: FileSystem, workingDir: string, groups: seq<Split.Group>): seq<Split.Group>
    decreases |groups|
  {
    if groups == [] then []
    else
      var g := groups[|groups| - 1];
      Survivors(fsys, workingDir, groups[..|groups| - 1])
      + (if DirPasses(fsys, workingDir, g.dir) then [Split.Group(g.dir, Matching(fsys, g.dir, g.files))] else [])
  }

  lemma {:induction false} CheckFilesSound(fsys: FileSystem, answers: seq<string>, dir: string, s: FileCheck, files: seq<AudioFile>)
    requires !s.aborted
    ensures var r := CheckFiles(fsys, answers, dir, s, files);
      !r.aborted ==> r.validatedFiles == s.validatedFiles + Matching(fsys, dir, files)
    decreases |files|
  {
    if files != [] {
      var init := files[..|files| - 1];
      var f := files[|files| - 1];
      var m := CheckFiles(fsys, answers, dir, s, init);
      var r := CheckFile(fsys, answers, dir, m, f);
      assert CheckFiles(fsys, answers, dir, s, files) == r;
      if !m.aborted && !r.aborted {
        CheckFilesSound(fsys, answers, dir, s, init);
        var filePath := Join(dir, f.filepath);
        if fsys.fileExists(filePath) && fsys.sizeOf(filePath) == f.fileSize {
          AppendOne(s.validatedFiles, Matching(fsys, dir, init), m.validatedFiles, f, r.validatedFiles);
        } else {
          assert Matching(fsys, dir, files) == Matching(fsys, dir, init);
        }
      }
    }
  }

  lemma {:induction false} CheckGroupsSound(fsys: FileSystem, answers: seq<string>, workingDir: string, s: DirCheck, groups: seq<Split.Group>)
    requires !s.aborted
    ensures var r := CheckGroups(fsys, answers, workingDir, s, groups);
      !r.aborted ==> r.validated == s.validated + Survivors(fsys, workingDir, groups)
    decreases |groups|
  {
    if groups != [] {
      var init := groups[..|groups| - 1];
      var g := groups[|groups| - 1];
      var m := CheckGroups(fsys, answers, workingDir, s, init);
      var r := CheckGroup(fsys, answers, workingDir, m, g);
      assert CheckGroups(fsys, answers, workingDir, s, groups) == r;
      if !m.aborted && !r.aborted {
        CheckGroupsSound(fsys, answers, workingDir, s, init);
        if DirPasses(fsys, workingDir, g.dir) {
          var c := CheckFiles(fsys, answers, g.dir, FileCheck(false, m.cursor, []), g.files);
          CheckFilesSound(fsys, answers, g.dir, FileCheck(false, m.cursor, []), g.files);
          var kept := Split.Group(g.dir, Matching(fsys, g.dir, g.files));
          assert [] + kept.files == kept.files;
          AppendOne(s.validated, Survivors(fsys, workingDir, init), m.validated, kept, r.validated);
        } else {
          assert Survivors(fsys, workingDir, groups) == Survivors(fsys, workingDir, init);
        }
      }
    }
  }

  /** The operator's answers only decide whether the run aborts. */
  lemma ValidatedSound(fsys: FileSystem, answers: seq<string>, workingDir: string, groups: seq<Split.Group>)
    ensures var r := Validated(fsys, answers, workingDir, groups);
      && (r.Done? ==> r.value == Survivors(fsys, workingDir, groups))
      && (r.Failed? ==> r.error == Abort)
  {
    CheckGroupsSound(fsys, answers, workingDir, DirCheck(false, 0, []), groups);
  }

  /** A kept entry is one of the list whose file exists with the recorded size. */
  lemma {:induction false} MatchingSound(fsys: FileSystem, dir: string, files: seq<AudioFile>)
    ensures forall f :: f in Matching(fsys, dir, files) ==> f in files && Matches(fsys, dir, f)
    decreases |files|
  {
    if files != [] {
      var init := files[..|files| - 1];
      var f := files[|files| - 1];
      MatchingSound(fsys, dir, init);
      var m := Matching(fsys, dir, init);
      assert Matching(fsys, dir, files) == m + (if Matches(fsys, dir, f) then [f] else []);
      forall g | g in m ensures g in files {
        var k :| 0 <= k < |init| && init[k] == g;
        assert files[k] == g;
      }
    }
  }

  /** Every entry whose file exists with the recorded size is kept. */
  lemma {:induction false} MatchingComplete(fsys: FileSystem, dir: string, files: seq<AudioFile>)
    ensures forall i :: 0 <= i < |files| && Matches(fsys, dir, files[i]) ==> files[i] in Matching(fsys, dir, files)
    decreases |files|
  {
    if files != [] {
      var init := files[..|files| - 1];
      var f := files[|files| - 1];
      MatchingComplete(fsys, dir, init);
      var m := Matching(fsys, dir, init);
      assert Matching(fsys, dir, files) == m + (if Matches(fsys, dir, f) then [f] else []);
      forall i | 0 <= i < |init| && Matches(fsys, dir, files[i]) ensures files[i] in m {
        assert files[i] == init[i];
      }
    }
  }

  /** Every existing file of the list has its recorded size. */
  predicate SizesAgree(fsys: FileSystem, dir: string, files: seq<AudioFile>) {
    forall i :: 0 <= i < |files| ==>
      (fsys.fileExists(Join(dir, files[i].filepath)) ==> fsys.sizeOf(Join(dir, files[i].filepath)) == files[i].fileSize)
  }

  /** With normalisation off and every existing file of its recorded size,
      the `split` command keeps the entries the earlier version keeps. */
  lemma {:induction false} KeptIsMatchingWhenSizesAgree(env: Split.Env, dir: string, files: seq<AudioFile>)
    requires !env.normalize && SizesAgree(env.fsys, dir, files)
    ensures Split.Kept(env, dir, files) == Matching(env.fsys, dir, files)
    decreases |files|
  {
    if files != [] {
      var init := files[..|files| - 1];
      assert forall i :: 0 <= i < |init| ==> init[i] == files[i];
      KeptIsMatchingWhenSizesAgree(env, dir, init);
    }
  }

  /** The earlier output with every directory's marks renumbered from 1. */
  function Renumbered(groups: seq<Split.Group>): (r: seq<Split.Group>)
    ensures |r| == |groups|
    decreases |groups|
  {
    if groups == [] then []
    else
      var g := groups[|groups| - 1];
      Renumbered(groups[..|groups| - 1]) + [Split.Group(g.dir, MarkList.RenumberFiles(g.files, 1))]
  }

  /** How the two versions relate: under those conditions the `split`
      command writes the earlier version's storages with the marks
      renumbered, and nothing else differs. */
  lemma {:induction false} SurvivorsRenumbered(env: Split.Env, workingDir: string, groups: seq<Split.Group>)
    requires !env.normalize
    requires forall k :: 0 <= k < |groups| ==> SizesAgree(env.fsys, groups[k].dir, groups[k].files)
    ensures Split.Survivors(env, workingDir, groups) == Renumbered(Survivors(env.fsys, workingDir, groups))
    decreases |groups|
  {
    if groups != [] {
      var init := groups[..|groups| - 1];
      var g := groups[|groups| - 1];
      assert forall k :: 0 <= k < |init| ==> init[k] == groups[k];
      SurvivorsRenumbered(env, workingDir, init);
      var legacy := Survivors(env.fsys, workingDir, init);
      if DirPasses(env.fsys, workingDir, g.dir) {
        KeptIsMatchingWhenSizesAgree(env, g.dir, g.files);
        var last := Split.Group(g.dir, Matching(env.fsys, g.dir, g.files));
        assert Survivors(env.fsys, workingDir, groups) == legacy + [last];
        RenumberedSnoc(legacy, last);
      } else {
        assert Survivors(env.fsys, workingDir, groups) == legacy;
      }
    }
  }

  lemma RenumberedSnoc(groups: seq<Split.Group>, g: Split.Group)
    ensures Renumbered(groups + [g]) == Renumbered(groups) + [Split.Group(g.dir, MarkList.RenumberFiles(g.files, 1))]
  {
    assert (groups + [g])[..|groups|] == groups;
  }

  function Run(fsys: FileSystem, answers: seq<string>, storage: Storage, inputFilePath: string, phoneUserDir: string): Outcome<seq<Write>> {
    var cwd := fsys.cwd;
    var phone := Split.AbsolutePhoneUserDir(cwd, phoneUserDir, storage.externalStorageDirectory);
    var workingDir := Split.WorkingDir(cwd, inputFilePath);
    var groups := Split.Grouped(Split.PlaceAll(cwd, workingDir, phone, storage.files));
    match Validated(fsys, answers, workingDir, groups)
    case Done(validated) => Done(Split.NewStorages(validated))
    case Failed(e) => Failed(e)
  }

  /** The default export, given the parsed storage: grouping and writing are
      those of the `split` command. */
  method SplitCommand(fsys: FileSystem, answers: seq<string>, storage: Storage, inputFilePath: string, phoneUserDir: string)
    returns (r: Outcome<seq<Write>>)
    ensures r == Run(fsys, answers, storage, inputFilePath, phoneUserDir)
  {
    var cwd := fsys.cwd;
    var absolutePhoneUserDir := Split.AbsolutePhoneUserDir(cwd, phoneUserDir, storage.externalStorageDirectory);
    var workingDir := Split.WorkingDir(cwd, inputFilePath);
    var dirFilesMap := Split.BuildDirFilesMap(cwd, storage, absolutePhoneUserDir, workingDir);
    var validated := ValidateDirFilesMap(fsys, answers, dirFilesMap, workingDir);
    if validated.Failed? {
      return Failed(validated.error);
    }
    var writes := Split.WriteNewStorages(validated.value);
    return Done(writes);
  }

  /** What the earlier version writes when it finishes: one storage per
      passing directory with exactly the entries whose file exists with the
      recorded size. */
  lemma RunSound(fsys: FileSystem, answers: seq<string>, storage: Storage, inputFilePath: string, phoneUserDir: string)
    ensures var r := Run(fsys, answers, storage, inputFilePath, phoneUserDir);
      var cwd := fsys.cwd;
      var workingDir := Split.WorkingDir(cwd, inputFilePath);
      var phone := Split.AbsolutePhoneUserDir(cwd, phoneUserDir, storage.externalStorageDirectory);
      var groups := Split.Grouped(Split.PlaceAll(cwd, workingDir, phone, storage.files));
      && (r.Done? ==> r.value == Split.NewStorages(Survivors(fsys, workingDir, groups)))
      && (r.Failed? ==> r.error == Abort)
  {
    var cwd := fsys.cwd;
    var workingDir := Split.WorkingDir(cwd, inputFilePath);
    var phone := Split.AbsolutePhoneUserDir(cwd, phoneUserDir, storage.externalStorageDirectory);
    ValidatedSound(fsys, answers, workingDir, Split.Grouped(Split.PlaceAll(cwd, workingDir, phone, storage.files)));
  }
}
