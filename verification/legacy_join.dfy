/** The first version of `join` (src/join.ts): the same walk, filters and
    prompt as the current command, but the entries of each storage are
    copied with their marks as they are, without renumbering. */
module LegacyJoin {
  import opened Model
  import opened Paths
  import opened Prompt
  import opened MarkList
  import opened JoinCommand

  datatype LegacyState = LegacyState(stop: Option<Failure>, cursor: nat, files: seq<AudioFile>)

  const LegacyStart: LegacyState := LegacyState(None, 0, [])

  function LegacyStep(env: Env, absoluteWorkingDir: string, s: LegacyState, f: string): LegacyState {
    if s.stop.Some? || !Aggregated(absoluteWorkingDir, f) then s
    else
      match env.read(f)
      case Parsed(local) =>
        s.(files := s.files + Rerooted(StorageDir(env.fsys.cwd, absoluteWorkingDir, f), local.files))
      case Malformed(_) =>
        if AskYesNo(env.answers, s.cursor) then s.(cursor := s.cursor + 1)
        else s.(stop := Some(Abort), cursor := s.cursor + 1)
      case Unreadable(message) => s.(stop := Some(PlainError(message)))
  }

  function LegacySteps(env: Env, absoluteWorkingDir: string, s: LegacyState, walk: seq<string>): LegacyState
    decreases |walk|
  {
    if walk == [] then s
    else LegacyStep(env, absoluteWorkingDir, LegacySteps(env, absoluteWorkingDir, s, walk[..|walk| - 1]), walk[|walk| - 1])
  }

  function LegacyJoinRun(env: Env, workingDir: string): Outcome<Write> {
    var absoluteWorkingDir := Resolve(env.fsys.cwd, workingDir);
    if !env.fsys.dirExists(workingDir) then Failed(JoinError(DirectoryNotFound))
    else
      var r := LegacySteps(env, absoluteWorkingDir, LegacyStart, WalkOf(env, workingDir));
      match r.stop
      case Some(e) => Failed(e)
      case None => Done(StorageWrite(Join(workingDir, GlobalMarksFilename), Storage("", r.files)))
  }

  lemma LegacyStepsSnoc(env: Env, absoluteWorkingDir: string, s: LegacyState, walk: seq<string>, i: int)
    requires 0 <= i < |walk|
    ensures LegacySteps(env, absoluteWorkingDir, s, walk[..i + 1])
      == LegacyStep(env, absoluteWorkingDir, LegacySteps(env, absoluteWorkingDir, s, walk[..i]), walk[i])
  {
    assert walk[..i + 1][..i] == walk[..i];
  }

  lemma {:induction false} LegacyStopSticks(env: Env, absoluteWorkingDir: string, s: LegacyState, walk: seq<string>, more: seq<string>)
    requires LegacySteps(env, absoluteWorkingDir, s, walk).stop.Some?
    ensures LegacySteps(env, absoluteWorkingDir, s, walk + more) == LegacySteps(env, absoluteWorkingDir, s, walk)
    decreases |more|
  {
    if more == [] {
      assert walk + more == walk;
    } else {
      var m := more[..|more| - 1];
      assert (walk + more)[..|walk + more| - 1] == walk + m;
      LegacyStopSticks(env, absoluteWorkingDir, s, walk, m);
    }
  }

  lemma LegacyStoppedAt(env: Env, absoluteWorkingDir: string, s: LegacyState, walk: seq<string>, i: int)
    requires 0 <= i <= |walk| && LegacySteps(env, absoluteWorkingDir, s, walk[..i]).stop.Some?
    ensures LegacySteps(env, absoluteWorkingDir, s, walk) == LegacySteps(env, absoluteWorkingDir, s, walk[..i])
  {
    LegacyStopSticks(env, absoluteWorkingDir, s, walk[..i], walk[i..]);
    assert walk[..i] + walk[i..] == walk;
  }

  /** The default export of src/join.ts. */
  method LegacyJoinCommand(env: Env, workingDir: string) returns (r: Outcome<Write>)
    ensures r == LegacyJoinRun(env, workingDir)
  {
    var cwd := env.fsys.cwd;
    var absoluteWorkingDir := Resolve(cwd, workingDir);
    if !env.fsys.dirExists(workingDir) {
      return Failed(JoinError(DirectoryNotFound));
    }
    var files: seq<AudioFile> := [];
    var cursor := 0;
    var walk := WalkOf(env, workingDir);
    var i := 0;
    while i < |walk|
      invariant 0 <= i <= |walk|
      invariant LegacySteps(env, absoluteWorkingDir, LegacyStart, walk[..i]) == LegacyState(None, cursor, files)
    {
      var f := walk[i];
      LegacyStepsSnoc(env, absoluteWorkingDir, LegacyStart, walk, i);
      i := i + 1;
      if Basename(f) != LocalMarksFilename {
        continue;
      }
      if absoluteWorkingDir == Dirname(f) {
        continue;
      }
      var storageDir := Relative(cwd, absoluteWorkingDir, Dirname(f));
      match env.read(f)
      case Unreadable(message) =>
        LegacyStoppedAt(env, absoluteWorkingDir, LegacyStart, walk, i);
        return Failed(PlainError(message));
      case Malformed(_) =>
        var proceed := AskYesNo(env.answers, cursor);
        cursor := cursor + 1;
        if !proceed {
          LegacyStoppedAt(env, absoluteWorkingDir, LegacyStart, walk, i);
          return Failed(Abort);
        }
      case Parsed(localAudipoMarksStorage) =>
        files := files + Rerooted(storageDir, localAudipoMarksStorage.files);
    }
    assert walk[..i] == walk;
    return Done(StorageWrite(Join(workingDir, GlobalMarksFilename), Storage("", files)));
  }

  /** The two versions read the same files, ask the same questions and stop
      in the same place; when they finish, the legacy one has collected the
      re-rooted entries with their marks as read. */
  lemma {:induction false} LegacyMatchesCurrent(env: Env, absoluteWorkingDir: string, walk: seq<string>)
    ensures var l := LegacySteps(env, absoluteWorkingDir, LegacyStart, walk);
      var c := Steps(env, absoluteWorkingDir, Start, walk);
      && l.stop == c.stop && l.cursor == c.cursor
      && (l.stop.None? ==> l.files == Collected(env, absoluteWorkingDir, walk))
    decreases |walk|
  {
    if walk != [] {
      var init := walk[..|walk| - 1];
      var f := walk[|walk| - 1];
      LegacyMatchesCurrent(env, absoluteWorkingDir, init);
      var l := LegacySteps(env, absoluteWorkingDir, LegacyStart, init);
      var c := Steps(env, absoluteWorkingDir, Start, init);
      assert LegacySteps(env, absoluteWorkingDir, LegacyStart, walk) == LegacyStep(env, absoluteWorkingDir, l, f);
      assert Steps(env, absoluteWorkingDir, Start, walk) == Step(env, absoluteWorkingDir, c, f);
      LegacyStepMatches(env, absoluteWorkingDir, l, c, f, Collected(env, absoluteWorkingDir, init));
    }
  }

  lemma LegacyStepMatches(env: Env, absoluteWorkingDir: string, l: LegacyState, c: JoinState, f: string, collected: seq<AudioFile>)
    requires l.stop == c.stop && l.cursor == c.cursor && (l.stop.None? ==> l.files == collected)
    ensures var l' := LegacyStep(env, absoluteWorkingDir, l, f);
      var c' := Step(env, absoluteWorkingDir, c, f);
      && l'.stop == c'.stop && l'.cursor == c'.cursor
      && (l'.stop.None? ==> l'.files == collected + Contribution(env, absoluteWorkingDir, f))
  {
  }

  /** What the renumbering of the current version changes: exactly the mark
      ids. A finished legacy run writes to the same place as the current one,
      and renumbering its entries from 1 gives the current one's entries. */
  lemma LegacyJoinRenumbered(env: Env, workingDir: string)
    ensures var l := LegacyJoinRun(env, workingDir);
      var c := JoinRun(env, workingDir);
      && (l.Done? <==> c.Done?)
      && (l.Failed? ==> l == c)
      && (l.Done? ==>
            && l.value.path == c.value.path
            && c.value.storage == l.value.storage.(files := RenumberFiles(l.value.storage.files, 1)))
  {
    var absoluteWorkingDir := Resolve(env.fsys.cwd, workingDir);
    var walk := WalkOf(env, workingDir);
    LegacyMatchesCurrent(env, absoluteWorkingDir, walk);
    StepsSound(env, absoluteWorkingDir, walk);
  }
}
