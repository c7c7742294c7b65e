/** The `join` command (src/commands/join.ts): every `local.audipomark` below
    the working directory, except the one directly in it, is read in the
    order of the depth-first walk; its entries are re-rooted at the storage's
    directory relative to the working directory and their marks renumbered
    from one counter that runs across all storages; the result is the global
    storage of the working directory. */
module JoinCommand {
  import opened Model
  import opened Paths
  import opened Prompt
  import opened MarkList
  import Walk

  /** What `readStorage(f)` does with a file: the parsed storage, a
      StorageError (the document does not have the storage shape) with its
      message, or any other exception (unreadable file, text that is not
      JSON), which the command does not catch. */
  datatype ReadResult = Parsed(storage: Storage) | Malformed(message: string) | Unreadable(message: string)

  /** The filesystem, the listing of the working directory (the tree below
      it), what reading each file gives, and the operator's answers. */
  datatype Env = Env(fsys: FileSystem, tree: seq<Walk.Entry>, read: string -> ReadResult, answers: seq<string>)

  const DirectoryNotFound: string := "Directory not found"

  /** The two filters of the loop: the file is a local storage, and it is not
      the one directly in the working directory. */
  predicate Aggregated(absoluteWorkingDir: string, f: string) {
    Basename(f) == LocalMarksFilename && absoluteWorkingDir != Dirname(f)
  }

  /** `path.relative(path.resolve(workingDir), path.dirname(f))`. */
  function StorageDir(cwd: string, absoluteWorkingDir: string, f: string): string {
    Relative(cwd, absoluteWorkingDir, Dirname(f))
  }

  /** The entries of a storage with their paths re-rooted at `storageDir`. */
  function Rerooted(storageDir: string, files: seq<AudioFile>): (r: seq<AudioFile>)
    ensures |r| == |files|
    decreases |files|
  {
    if files == [] then []
    else
      var f := files[|files| - 1];
      Rerooted(storageDir, files[..|files| - 1]) + [f.(filepath := Join(storageDir, f.filepath))]
  }

  /** Re-rooting changes the path of every entry to the storage directory
      joined with it, and nothing else: size and marks are untouched. */
  lemma {:induction false} RerootedEntries(storageDir: string, files: seq<AudioFile>, i: int)
    requires 0 <= i < |files|
    ensures var r := Rerooted(storageDir, files)[i];
      && r.filepath == Join(storageDir, files[i].filepath)
      && r.fileSize == files[i].fileSize && r.marklist == files[i].marklist
    decreases |files|
  {
    var init := files[..|files| - 1];
    if i < |init| {
      RerootedEntries(storageDir, init, i);
      assert init[i] == files[i];
    }
  }

  /** Re-rooting keeps the marks of the storage, in order. */
  lemma {:induction false} RerootedMarks(storageDir: string, files: seq<AudioFile>)
    ensures AllMarks(Rerooted(storageDir, files)) == AllMarks(files)
    decreases |files|
  {
    if files != [] {
      var init := files[..|files| - 1];
      RerootedMarks(storageDir, init);
    }
  }

  lemma RerootedSnoc(storageDir: string, files: seq<AudioFile>, j: int)
    requires 0 <= j < |files|
    ensures Rerooted(storageDir, files[..j + 1])
      == Rerooted(storageDir, files[..j]) + [files[j].(filepath := Join(storageDir, files[j].filepath))]
  {
    assert files[..j + 1][..j] == files[..j];
  }

  /** What the loop carries from file to file: why it stopped, if it did, the
      next answer, the entries collected and the next mark id. */
  datatype JoinState = JoinState(stop: Option<Failure>, cursor: nat, files: seq<AudioFile>, markId: int)

  const Start: JoinState := JoinState(None, 0, [], 1)

  /** One file of the walk. */
  function Step(env: Env, absoluteWorkingDir: string, s: JoinState, f: string): JoinState {
    if s.stop.Some? || !Aggregated(absoluteWorkingDir, f) then s
    else
      var storageDir := StorageDir(env.fsys.cwd, absoluteWorkingDir, f);
      match env.read(f)
      case Parsed(local) =>
        s.(files := s.files + RenumberFiles(Rerooted(storageDir, local.files), s.markId),
           markId := s.markId + |AllMarks(local.files)|)
      case Malformed(_) =>
        if AskYesNo(env.answers, s.cursor) then s.(cursor := s.cursor + 1)
        else s.(stop := Some(Abort), cursor := s.cursor + 1)
      case Unreadable(message) => s.(stop := Some(PlainError(message)))
  }

  function Steps(env: Env, absoluteWorkingDir: string, s: JoinState, walk: seq<string>): JoinState
    decreases |walk|
  {
    if walk == [] then s else Step(env, absoluteWorkingDir, Steps(env, absoluteWorkingDir, s, walk[..|walk| - 1]), walk[|walk| - 1])
  }

  /** The files `getFiles(workingDir)` yields. */
  function WalkOf(env: Env, workingDir: string): seq<string> {
    Walk.GetFiles(env.fsys.cwd, workingDir, env.tree)
  }

  /** The command as a value: the global storage written, or why it stopped. */
  function JoinRun(env: Env, workingDir: string): Outcome<Write> {
    var absoluteWorkingDir := Resolve(env.fsys.cwd, workingDir);
    if !env.fsys.dirExists(workingDir) then Failed(JoinError(DirectoryNotFound))
    else
      var r := Steps(env, absoluteWorkingDir, Start, WalkOf(env, workingDir));
      match r.stop
      case Some(e) => Failed(e)
      case None => Done(StorageWrite(Join(workingDir, GlobalMarksFilename), Storage("", r.files)))
  }

  lemma StepsSnoc(env: Env, absoluteWorkingDir: string, s: JoinState, walk: seq<string>, i: int)
    requires 0 <= i < |walk|
    ensures Steps(env, absoluteWorkingDir, s, walk[..i + 1]) == Step(env, absoluteWorkingDir, Steps(env, absoluteWorkingDir, s, walk[..i]), walk[i])
  {
    assert walk[..i + 1][..i] == walk[..i];
  }

  /** Once stopped, later files change nothing. */
  lemma {:induction false} StopSticks(env: Env, absoluteWorkingDir: string, s: JoinState, walk: seq<string>, more: seq<string>)
    requires Steps(env, absoluteWorkingDir, s, walk).stop.Some?
    ensures Steps(env, absoluteWorkingDir, s, walk + more) == Steps(env, absoluteWorkingDir, s, walk)
    decreases |more|
  {
    if more == [] {
      assert walk + more == walk;
    } else {
      var m := more[..|more| - 1];
      assert (walk + more)[..|walk + more| - 1] == walk + m;
      StopSticks(env, absoluteWorkingDir, s, walk, m);
    }
  }

  lemma StoppedAt(env: Env, absoluteWorkingDir: string, s: JoinState, walk: seq<string>, i: int)
    requires 0 <= i <= |walk| && Steps(env, absoluteWorkingDir, s, walk[..i]).stop.Some?
    ensures Steps(env, absoluteWorkingDir, s, walk) == Steps(env, absoluteWorkingDir, s, walk[..i])
  {
    StopSticks(env, absoluteWorkingDir, s, walk[..i], walk[i..]);
    assert walk[..i] + walk[i..] == walk;
  }

  /** The inner loop: the entries of one storage pushed with their paths
      re-rooted and their marks numbered on from the counter. */
  method AppendStorage(files: seq<AudioFile>, markId: int, storageDir: string, local: seq<AudioFile>)
    returns (files': seq<AudioFile>, markId': int)
    ensures files' == files + RenumberFiles(Rerooted(storageDir, local), markId)
    ensures markId' == markId + |AllMarks(local)|
  {
    files', markId' := files, markId;
    var j := 0;
    while j < |local|
      invariant 0 <= j <= |local|
      invariant files' == files + RenumberFiles(Rerooted(storageDir, local[..j]), markId)
      invariant markId' == markId + |AllMarks(Rerooted(storageDir, local[..j]))|
    {
      var file := local[j];
      var pushed := file.(filepath := Join(storageDir, file.filepath), marklist := Enumerate(file.marklist, markId'));
      ghost var rerooted := file.(filepath := Join(storageDir, file.filepath));
      ghost var before := files';
      files' := files' + [pushed];
      RenumberStep(files, Rerooted(storageDir, local[..j]), rerooted, markId, before, markId', files');
      RerootedSnoc(storageDir, local, j);
      markId' := markId' + |file.marklist|;
      j := j + 1;
    }
    assert local[..j] == local;
    RerootedMarks(storageDir, local);
  }

  /** The default export, given the tree below the working directory and what
      reading each storage gives. */
  method JoinCommand(env: Env, workingDir: string) returns (r: Outcome<Write>)
    ensures r == JoinRun(env, workingDir)
  {
    var cwd := env.fsys.cwd;
    var absoluteWorkingDir := Resolve(cwd, workingDir);
    if !env.fsys.dirExists(workingDir) {
      return Failed(JoinError(DirectoryNotFound));
    }
    var files: seq<AudioFile> := [];
    var markId := 1;
    var cursor := 0;
    var walk := Walk.GetFiles(cwd, workingDir, env.tree);
    var i := 0;
    while i < |walk|
      invariant 0 <= i <= |walk|
      invariant Steps(env, absoluteWorkingDir, Start, walk[..i]) == JoinState(None, cursor, files, markId)
    {
      var f := walk[i];
      StepsSnoc(env, absoluteWorkingDir, Start, walk, i);
      i := i + 1;
      if Basename(f) != LocalMarksFilename {
        continue;
      }
      if absoluteWorkingDir == Dirname(f) {
        continue;
      }
      var storageDir := Relative(cwd, absoluteWorkingDir, Dirname(f));
      var read := env.read(f);
      match read
      case Unreadable(message) =>
        StoppedAt(env, absoluteWorkingDir, Start, walk, i);
        return Failed(PlainError(message));
      case Malformed(_) =>
        var proceed := AskYesNo(env.answers, cursor);
        cursor := cursor + 1;
        if !proceed {
          StoppedAt(env, absoluteWorkingDir, Start, walk, i);
          return Failed(Abort);
        }
      case Parsed(localAudipoMarksStorage) =>
        files, markId := AppendStorage(files, markId, storageDir, localAudipoMarksStorage.files);
    }
    assert walk[..i] == walk;
    var storageFilePath := Join(workingDir, GlobalMarksFilename);
    return Done(StorageWrite(storageFilePath, Storage("", files)));
  }

  // ---------------------------------------------------------------- what the answers do not change

  /** The entries of every storage read, re-rooted, in walk order: what the
      command collects when it does not stop, before numbering. */
  function Collected(env: Env, absoluteWorkingDir: string, walk: seq<string>): seq<AudioFile>
    decreases |walk|
  {
    if walk == [] then []
    else
      Collected(env, absoluteWorkingDir, walk[..|walk| - 1]) + Contribution(env, absoluteWorkingDir, walk[|walk| - 1])
  }

  /** The re-rooted entries one file of the walk adds, when it is read. */
  function Contribution(env: Env, absoluteWorkingDir: string, f: string): seq<AudioFile> {
    if Aggregated(absoluteWorkingDir, f) && env.read(f).Parsed?
    then Rerooted(StorageDir(env.fsys.cwd, absoluteWorkingDir, f), env.read(f).storage.files)
    else []
  }

  /** The counter is never reset: when the run does not stop, the collected
      entries carry one numbering from 1 across all storages, and the counter
      has advanced by every mark read. */
  lemma {:induction false} StepsSound(env: Env, absoluteWorkingDir: string, walk: seq<string>)
    ensures var r := Steps(env, absoluteWorkingDir, Start, walk);
      r.stop.None? ==>
        && r.files == RenumberFiles(Collected(env, absoluteWorkingDir, walk), 1)
        && r.markId == 1 + |AllMarks(Collected(env, absoluteWorkingDir, walk))|
    decreases |walk|
  {
    if walk != [] {
      var init := walk[..|walk| - 1];
      var f := walk[|walk| - 1];
      StepsSound(env, absoluteWorkingDir, init);
      var m := Steps(env, absoluteWorkingDir, Start, init);
      var r := Step(env, absoluteWorkingDir, m, f);
      assert Steps(env, absoluteWorkingDir, Start, walk) == r;
      var c := Collected(env, absoluteWorkingDir, init);
      if m.stop.None? && r.stop.None? {
        if Aggregated(absoluteWorkingDir, f) && env.read(f).Parsed? {
          var local := env.read(f).storage.files;
          var added := Rerooted(StorageDir(env.fsys.cwd, absoluteWorkingDir, f), local);
          assert Collected(env, absoluteWorkingDir, walk) == c + added;
          RerootedMarks(StorageDir(env.fsys.cwd, absoluteWorkingDir, f), local);
          CollectStep(c, added, m.files, m.markId);
        } else {
          assert Collected(env, absoluteWorkingDir, walk) == c + [];
          assert c + [] == c;
        }
      }
    }
  }

  /** Appending one storage's renumbered entries keeps the collected entries
      renumbered from 1 and the counter one past their last mark. */
  lemma CollectStep(c: seq<AudioFile>, added: seq<AudioFile>, files: seq<AudioFile>, markId: int)
    requires files == RenumberFiles(c, 1) && markId == 1 + |AllMarks(c)|
    ensures files + RenumberFiles(added, markId) == RenumberFiles(c + added, 1)
    ensures markId + |AllMarks(added)| == 1 + |AllMarks(c + added)|
  {
    RenumberFilesConcat(c, added, 1);
    AllMarksAppend(c, added);
  }

  /** Why a run stops: the operator refused to skip a malformed storage, or
      a storage could not be read at all (the error is passed on as is). */
  lemma {:induction false} StopCause(env: Env, absoluteWorkingDir: string, walk: seq<string>)
    ensures var r := Steps(env, absoluteWorkingDir, Start, walk);
      r.stop.Some? ==>
        r.stop.value == Abort ||
        exists k :: 0 <= k < |walk| && Aggregated(absoluteWorkingDir, walk[k]) &&
          env.read(walk[k]).Unreadable? && r.stop.value == PlainError(env.read(walk[k]).message)
    decreases |walk|
  {
    if walk != [] {
      var init := walk[..|walk| - 1];
      StopCause(env, absoluteWorkingDir, init);
      var m := Steps(env, absoluteWorkingDir, Start, init);
      var f := walk[|walk| - 1];
      StepStopCause(env, absoluteWorkingDir, m, f);
      if m.stop.Some? && m.stop.value != Abort {
        var k :| 0 <= k < |init| && Aggregated(absoluteWorkingDir, init[k]) &&
          env.read(init[k]).Unreadable? && m.stop.value == PlainError(env.read(init[k]).message);
        assert walk[k] == init[k];
      }
    }
  }

  /** One step keeps a stop, and stops only on a "no" or on the storage it
      cannot read. */
  lemma StepStopCause(env: Env, absoluteWorkingDir: string, s: JoinState, f: string)
    ensures var r := Step(env, absoluteWorkingDir, s, f);
      && (s.stop.Some? ==> r.stop == s.stop)
      && (s.stop.None? && r.stop.Some? ==>
            r.stop.value == Abort ||
            (Aggregated(absoluteWorkingDir, f) && env.read(f).Unreadable? && r.stop.value == PlainError(env.read(f).message)))
  {
  }

  /** Without malformed or unreadable storages in the walk, the run never
      stops and asks nothing. */
  lemma {:induction false} CleanRunDoesNotStop(env: Env, absoluteWorkingDir: string, walk: seq<string>)
    requires forall k :: 0 <= k < |walk| && Aggregated(absoluteWorkingDir, walk[k]) ==> env.read(walk[k]).Parsed?
    ensures Steps(env, absoluteWorkingDir, Start, walk).stop.None?
    ensures Steps(env, absoluteWorkingDir, Start, walk).cursor == 0
    decreases |walk|
  {
    if walk != [] {
      var init := walk[..|walk| - 1];
      assert forall k :: 0 <= k < |init| ==> init[k] == walk[k];
      CleanRunDoesNotStop(env, absoluteWorkingDir, init);
    }
  }

  /** The count of entries written is the sum of the entry counts of the
      storages that were read. */
  function EntryCount(env: Env, absoluteWorkingDir: string, walk: seq<string>): nat
    decreases |walk|
  {
    if walk == [] then 0
    else
      var f := walk[|walk| - 1];
      EntryCount(env, absoluteWorkingDir, walk[..|walk| - 1])
      + (if Aggregated(absoluteWorkingDir, f) && env.read(f).Parsed? then |env.read(f).storage.files| else 0)
  }

  lemma {:induction false} CollectedCount(env: Env, absoluteWorkingDir: string, walk: seq<string>)
    ensures |Collected(env, absoluteWorkingDir, walk)| == EntryCount(env, absoluteWorkingDir, walk)
    decreases |walk|
  {
    if walk != [] {
      CollectedCount(env, absoluteWorkingDir, walk[..|walk| - 1]);
    }
  }

  /** What the command writes when it finishes: the global storage of the
      working directory, with no storage directory of its own, holding every
      collected entry, numbered from 1 in walk order. When the directory is
      missing it fails before reading anything. */
  lemma JoinRunSound(env: Env, workingDir: string)
    ensures var r := JoinRun(env, workingDir);
      var absoluteWorkingDir := Resolve(env.fsys.cwd, workingDir);
      var collected := Collected(env, absoluteWorkingDir, WalkOf(env, workingDir));
      && (!env.fsys.dirExists(workingDir) <==> r == Failed(JoinError(DirectoryNotFound)))
      && (r.Done? ==>
            && r.value == StorageWrite(Join(workingDir, GlobalMarksFilename), Storage("", RenumberFiles(collected, 1)))
            && NumberedFrom(AllMarks(r.value.storage.files), 1)
            && AllMarks(r.value.storage.files) == Enumerate(AllMarks(collected), 1)
            && |r.value.storage.files| == EntryCount(env, absoluteWorkingDir, WalkOf(env, workingDir)))
  {
    var absoluteWorkingDir := Resolve(env.fsys.cwd, workingDir);
    var walk := WalkOf(env, workingDir);
    var collected := Collected(env, absoluteWorkingDir, walk);
    StepsSound(env, absoluteWorkingDir, walk);
    StopCause(env, absoluteWorkingDir, walk);
    RenumberFilesNumbered(collected, 1);
    RenumberFilesMarks(collected, 1);
    CollectedCount(env, absoluteWorkingDir, walk);
  }

  /** The answers only decide whether the run stops: two runs over the same
      tree and storages that both finish write the same storage. */
  lemma AnswersOnlyDecideStop(env: Env, answers: seq<string>, workingDir: string)
    ensures var other := env.(answers := answers);
      JoinRun(env, workingDir).Done? && JoinRun(other, workingDir).Done? ==>
        JoinRun(env, workingDir) == JoinRun(other, workingDir)
  {
    var other := env.(answers := answers);
    JoinRunSound(env, workingDir);
    JoinRunSound(other, workingDir);
    CollectedIgnoresAnswers(env, answers, Resolve(env.fsys.cwd, workingDir), WalkOf(env, workingDir));
  }

  lemma {:induction false} CollectedIgnoresAnswers(env: Env, answers: seq<string>, absoluteWorkingDir: string, walk: seq<string>)
    ensures Collected(env.(answers := answers), absoluteWorkingDir, walk) == Collected(env, absoluteWorkingDir, walk)
    decreases |walk|
  {
    if walk != [] {
      CollectedIgnoresAnswers(env, answers, absoluteWorkingDir, walk[..|walk| - 1]);
    }
  }

  // ---------------------------------------------------------------- which files are read, and where their entries go

  /** For a file the walk yields (a path strictly below the working directory
      with normal names), the filters keep it exactly when it is named
      `local.audipomark` and lies in a subdirectory, and its storage
      directory is the path of that subdirectory relative to the working
      directory. */
  lemma WalkedStorage(cwd: string, root: seq<string>, p: seq<string>)
    requires NormalSegs(true, p) && |root| < |p| && p[..|root|] == root
    ensures var f := Format(Path(true, p)); var awd := Format(Path(true, root));
      && (Aggregated(awd, f) <==> p[|p| - 1] == LocalMarksFilename && |p| > |root| + 1)
      && StorageDir(cwd, awd, f) == JoinSegs(p[|root|..|p| - 1])
  {
    var f := Format(Path(true, p));
    var dir := p[..|p| - 1];
    assert NormalSegs(true, dir) && NormalSegs(true, root);
    DirnameOf(p);
    BasenameOf(p);
    FormatInjective(root, dir);
    if |p| == |root| + 1 {
      assert dir == root;
    } else {
      assert |dir| != |root|;
    }
    ResolveResolved(cwd, root);
    ResolveResolved(cwd, dir);
    assert dir == root + p[|root|..|p| - 1];
    RelativeToExtension(root, p[|root|..|p| - 1]);
  }

  /** The walk of the command: every file it looks at is a printed absolute
      path strictly below the resolved working directory, so
      WalkedStorage applies to each. */
  lemma WalkBelowWorkingDir(env: Env, workingDir: string)
    requires Walk.WellNamed(env.tree)
    ensures var root := ResolvedPath(env.fsys.cwd, workingDir).segs;
      var paths := Walk.FilesBelow(root, env.tree);
      && WalkOf(env, workingDir) == Walk.Formatted(paths)
      && Resolve(env.fsys.cwd, workingDir) == Format(Path(true, root))
      && forall k :: 0 <= k < |paths| ==>
        |root| < |paths[k]| && paths[k][..|root|] == root && NormalSegs(true, paths[k])
  {
    var root := ResolvedPath(env.fsys.cwd, workingDir).segs;
    Walk.GetFilesResolved(env.fsys.cwd, workingDir, env.tree);
    Walk.FilesBelowPaths(root, env.tree);
  }
}
