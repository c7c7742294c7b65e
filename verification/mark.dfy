/** The `mark` command (src/commands/mark.ts): for each directory, every
    audio file is run through ffmpeg's silence detector; the detector's
    `lavfi.*` metadata lines are scanned for silence intervals, a mark is
    placed in each, the marks are thinned out by `normalizeMarks`, and the
    directory gets a local storage and a config file when it holds at least
    one audio file. */
module MarkCommand {
  import opened Model
  import opened Text
  import opened Paths
  import opened MarkList
  import opened FileType
  import Walk

  // ---------------------------------------------------------------- the detector's output

  /** A line without its terminator: a carriage return belongs to the
      terminator only when a newline follows it. */
  function DropCarriageReturn(piece: string): string {
    if piece != [] && piece[|piece| - 1] == '\r' then piece[..|piece| - 1] else piece
  }

  /** `stdout.split(/\r?\n/)`. */
  function Lines(stdout: string): (r: seq<string>)
    ensures |r| == |Split(stdout, '\n')|
  {
    var pieces := Split(stdout, '\n');
    seq(|pieces|, i requires 0 <= i < |pieces| =>
      if i < |pieces| - 1 then DropCarriageReturn(pieces[i]) else pieces[i])
  }

  /** Lines terminated by CRLF: every line but the last carries a '\r'. */
  function CrlfTerminated(lines: seq<string>): (r: seq<string>)
    ensures |r| == |lines|
  {
    seq(|lines|, i requires 0 <= i < |lines| => if i < |lines| - 1 then lines[i] + "\r" else lines[i])
  }

  /** Splitting recovers the lines of an output written with either line
      ending, as long as no line has a newline in it and no line ends in a
      carriage return of its own. */
  lemma LinesOfOutput(lines: seq<string>, crlf: bool)
    requires |lines| >= 1
    requires forall i :: 0 <= i < |lines| ==> '\n' !in lines[i]
    requires forall i :: 0 <= i < |lines| - 1 ==> lines[i] == [] || lines[i][|lines[i]| - 1] != '\r'
    ensures Lines(JoinWith(if crlf then CrlfTerminated(lines) else lines, '\n')) == lines
  {
    var written := if crlf then CrlfTerminated(lines) else lines;
    WrittenLines(lines, crlf);
    SplitJoin(written, '\n');
    var r := Lines(JoinWith(written, '\n'));
    forall i | 0 <= i < |lines| ensures r[i] == lines[i] {
      LineRecovered(lines, crlf, i);
    }
  }

  /** Line `i` of the written output, less its carriage return when another
      line follows, is line `i`. */
  lemma LineRecovered(lines: seq<string>, crlf: bool, i: int)
    requires 0 <= i < |lines|
    requires lines[i] == [] || lines[i][|lines[i]| - 1] != '\r' || i == |lines| - 1
    ensures var written := if crlf then CrlfTerminated(lines) else lines;
      (if i < |lines| - 1 then DropCarriageReturn(written[i]) else written[i]) == lines[i]
  {
    if crlf && i < |lines| - 1 {
      assert (lines[i] + "\r")[..|lines[i]|] == lines[i];
    }
  }

  lemma WrittenLines(lines: seq<string>, crlf: bool)
    requires forall i :: 0 <= i < |lines| ==> '\n' !in lines[i]
    ensures var written := if crlf then CrlfTerminated(lines) else lines;
      forall i :: 0 <= i < |written| ==> '\n' !in written[i]
  {
    var written := if crlf then CrlfTerminated(lines) else lines;
    forall i | 0 <= i < |written| ensures '\n' !in written[i] {
      if crlf && i < |lines| - 1 {
        assert written[i] == lines[i] + "\r";
        assert forall c :: c in lines[i] + "\r" ==> c in lines[i] || c == '\r';
      }
    }
  }

  /** The `/^lavfi/` test. */
  predicate IsLavfiLine(line: string) {
    StartsWith(line, "lavfi")
  }

  /** `const [k, v] = line.split("=")`: the text before the first '=' and the
      text between the first and the second. A line without '=' has no value;
      it is given as "", which `parseFloat` reads the same way (not a number). */
  function KeyValue(line: string): (string, string) {
    var parts := Split(line, '=');
    (parts[0], if |parts| > 1 then parts[1] else "")
  }

  /** The key and the value are read back from `key=value`, whatever follows
      a further '='. */
  lemma KeyValueOf(key: string, value: string, rest: seq<string>)
    requires '=' !in key && '=' !in value
    ensures KeyValue(key + "=" + value) == (key, value)
    ensures KeyValue(key + "=" + value + "=" + JoinWith(rest, '=')) == (key, value)
  {
    SplitConcat(key, value, '=');
    SplitNoSep(key, '=');
    SplitNoSep(value, '=');
    var longer := key + "=" + value + "=" + JoinWith(rest, '=');
    assert longer == key + "=" + (value + "=" + JoinWith(rest, '='));
    SplitConcat(key, value + "=" + JoinWith(rest, '='), '=');
    SplitConcat(value, JoinWith(rest, '='), '=');
  }

  const SilenceStartKey: string := "lavfi.silence_start"
  const SilenceEndKey: string := "lavfi.silence_end"
  const SilenceDurationKey: string := "lavfi.silence_duration"

  /** What a scanned line means to the scanner. Values are in milliseconds:
      `millis` stands for `Math.round(parseFloat(v) * 1000)`. */
  datatype Event = SilenceStart(ms: int) | SilenceEnd(ms: int) | SilenceDuration | Ignored

  function Classify(line: string, millis: string -> int): Event {
    var (k, v) := KeyValue(line);
    if k == SilenceStartKey then SilenceStart(millis(v))
    else if k == SilenceEndKey then SilenceEnd(millis(v))
    else if k == SilenceDurationKey then SilenceDuration
    else Ignored
  }

  function Events(lines: seq<string>, millis: string -> int): (r: seq<Event>)
    ensures |r| == |lines|
  {
    seq(|lines|, i requires 0 <= i < |lines| => Classify(lines[i], millis))
  }

  lemma EventsSnoc(lines: seq<string>, i: int, millis: string -> int)
    requires 0 <= i < |lines|
    ensures Events(lines[..i + 1], millis) == Events(lines[..i], millis) + [Classify(lines[i], millis)]
  {
    var a, b := Events(lines[..i + 1], millis), Events(lines[..i], millis) + [Classify(lines[i], millis)];
    forall k | 0 <= k < |a| ensures a[k] == b[k] {
      assert lines[..i + 1][k] == lines[k];
    }
  }

  /** The events of one run of the detector. */
  function OutputEvents(stdout: string, millis: string -> int): seq<Event> {
    Events(Filter(Lines(stdout), IsLavfiLine), millis)
  }

  // ---------------------------------------------------------------- placing marks

  /** Where a silence from `start` to `end` gets its mark: half a second
      before the audio resumes when the silence is longer than that, else in
      its middle. `Math.round(diff / 2)` rounds halves up, which on integers
      is `(diff + 1) / 2` with flooring division. */
  function Placement(start: int, end: int): int {
    var diff := end - start;
    if diff > MarkClearance then end - MarkClearance else start + (diff + 1) / 2
  }

  /** A mark lies inside its silence: the clearance before the audio resumes
      when the silence is long, else the middle (rounded up by half a
      millisecond at most). */
  lemma PlacementWithin(start: int, end: int)
    requires start <= end
    ensures start <= Placement(start, end) <= end
    ensures end - start > MarkClearance ==> end - Placement(start, end) == MarkClearance
    ensures end - start <= MarkClearance ==>
      0 <= (Placement(start, end) - start) - (end - Placement(start, end)) <= 1
  {
  }

  /** The scanner's state: the pending interval (`-1` for a slot not set),
      the marks so far and the next id. */
  datatype Scanner = Scanner(start: int, end: int, marks: seq<Mark>, markId: int)

  function Fresh(markId: int): Scanner {
    Scanner(-1, -1, [], markId)
  }

  /** One line of the `switch`: a start or an end overwrites its slot; a
      duration closes the interval, when both slots are set, with a mark and
      resets both; anything else is ignored. */
  function ScanStep(s: Scanner, e: Event): Scanner {
    match e
    case SilenceStart(ms) => s.(start := ms)
    case SilenceEnd(ms) => s.(end := ms)
    case SilenceDuration =>
      if s.start != -1 && s.end != -1
      then Scanner(-1, -1, s.marks + [PlainMark(s.markId, Placement(s.start, s.end))], s.markId + 1)
      else s
    case Ignored => s
  }

  function Scan(s: Scanner, events: seq<Event>): Scanner
    decreases |events|
  {
    if events == [] then s else ScanStep(Scan(s, events[..|events| - 1]), events[|events| - 1])
  }

  lemma ScanSnoc(s: Scanner, events: seq<Event>, e: Event)
    ensures Scan(s, events + [e]) == ScanStep(Scan(s, events), e)
  {
    assert (events + [e])[..|events|] == events;
  }

  /** The loop over the scanned lines, with the interval a two-slot array as
      in the source. */
  method ScanOutput(stdout: string, millis: string -> int, markId: int) returns (marks: seq<Mark>, nextId: int)
    ensures Scan(Fresh(markId), OutputEvents(stdout, millis)).marks == marks
    ensures Scan(Fresh(markId), OutputEvents(stdout, millis)).markId == nextId
  {
    var interval := new int[2];
    interval[0], interval[1] := -1, -1;
    marks, nextId := [], markId;
    var lines := Filter(Lines(stdout), IsLavfiLine);
    for i := 0 to |lines|
      invariant Scan(Fresh(markId), Events(lines[..i], millis)) == Scanner(interval[0], interval[1], marks, nextId)
    {
      EventsSnoc(lines, i, millis);
      ScanSnoc(Fresh(markId), Events(lines[..i], millis), Classify(lines[i], millis));
      marks, nextId := ScanLine(interval, marks, nextId, lines[i], millis);
    }
    assert lines[..|lines|] == lines;
  }

  /** The body of the loop for one line. */
  method ScanLine(interval: array<int>, marks: seq<Mark>, nextId: int, line: string, millis: string -> int)
    returns (marks': seq<Mark>, nextId': int)
    requires interval.Length == 2
    modifies interval
    ensures Scanner(interval[0], interval[1], marks', nextId')
      == ScanStep(Scanner(old(interval[0]), old(interval[1]), marks, nextId), Classify(line, millis))
  {
    marks', nextId' := marks, nextId;
    var kv := KeyValue(line);
    var k, v := kv.0, kv.1;
    if k == SilenceStartKey {
      interval[0] := millis(v);
    } else if k == SilenceEndKey {
      interval[1] := millis(v);
    } else if k == SilenceDurationKey {
      if interval[0] != -1 && interval[1] != -1 {
        var diff := interval[1] - interval[0];
        var pos := if diff > MarkClearance then interval[1] - MarkClearance else interval[0] + (diff + 1) / 2;
        marks' := marks' + [PlainMark(nextId', pos)];
        nextId' := nextId' + 1;
        interval[0], interval[1] := -1, -1;
      }
    }
  }

  /** The marks of one scan carry consecutive ids from the counter, which
      ends one past the last of them. */
  lemma {:induction false} ScanNumbered(s: Scanner, events: seq<Event>, first: int)
    requires NumberedFrom(s.marks, first) && s.markId == first + |s.marks|
    ensures var r := Scan(s, events);
      NumberedFrom(r.marks, first) && r.markId == first + |r.marks|
    decreases |events|
  {
    if events != [] {
      var m := Scan(s, events[..|events| - 1]);
      ScanNumbered(s, events[..|events| - 1], first);
    }
  }

  /** The number of duration lines among the events. */
  function Durations(events: seq<Event>): nat
    decreases |events|
  {
    if events == [] then 0
    else Durations(events[..|events| - 1]) + (if events[|events| - 1] == SilenceDuration then 1 else 0)
  }

  /** Only a duration line can add a mark, and each adds at most one. */
  lemma {:induction false} MarksAtMostDurations(s: Scanner, events: seq<Event>)
    ensures |Scan(s, events).marks| <= |s.marks| + Durations(events)
    decreases |events|
  {
    if events != [] {
      MarksAtMostDurations(s, events[..|events| - 1]);
    }
  }

  /** A silence as the detector reports it. */
  datatype Silence = Silence(start: int, end: int)

  /** The lines the detector prints for a list of silences: start, end and
      duration of each in turn. */
  function Reported(silences: seq<Silence>): (r: seq<Event>)
    ensures |r| == 3 * |silences|
    decreases |silences|
  {
    if silences == [] then []
    else
      var last := silences[|silences| - 1];
      Reported(silences[..|silences| - 1]) + [SilenceStart(last.start), SilenceEnd(last.end), SilenceDuration]
  }

  /** The marks the detector's report should give: one per silence, in order,
      at its placement, ids counted on from `first`. */
  function Expected(silences: seq<Silence>, first: int): (r: seq<Mark>)
    ensures |r| == |silences|
  {
    seq(|silences|, i requires 0 <= i < |silences| => PlainMark(first + i, Placement(silences[i].start, silences[i].end)))
  }

  /** On a regular report the scanner places exactly one mark per silence and
      ends with the interval cleared. (A time of exactly -1 ms reads as "not
      set": the slots use -1 as their sentinel.) */
  lemma {:induction false} ScanReported(silences: seq<Silence>, first: int)
    requires forall i :: 0 <= i < |silences| ==> silences[i].start != -1 && silences[i].end != -1
    ensures Scan(Fresh(first), Reported(silences)) == Scanner(-1, -1, Expected(silences, first), first + |silences|)
    decreases |silences|
  {
    if silences != [] {
      var init := silences[..|silences| - 1];
      var last := silences[|silences| - 1];
      ScanReported(init, first);
      ScanSilence(Fresh(first), Reported(init), last);
      assert Reported(silences) == Reported(init) + [SilenceStart(last.start), SilenceEnd(last.end), SilenceDuration];
      assert Expected(silences, first) == Expected(init, first) + [PlainMark(first + |init|, Placement(last.start, last.end))];
    }
  }

  /** Scanning the three lines of one silence. */
  lemma ScanSilence(s: Scanner, events: seq<Event>, silence: Silence)
    ensures var m := Scan(s, events);
      Scan(s, events + [SilenceStart(silence.start), SilenceEnd(silence.end), SilenceDuration])
        == ScanStep(m.(start := silence.start, end := silence.end), SilenceDuration)
  {
    var a := events + [SilenceStart(silence.start)];
    var b := a + [SilenceEnd(silence.end)];
    ScanSnoc(s, events, SilenceStart(silence.start));
    ScanSnoc(s, a, SilenceEnd(silence.end));
    ScanSnoc(s, b, SilenceDuration);
    assert b + [SilenceDuration] == events + [SilenceStart(silence.start), SilenceEnd(silence.end), SilenceDuration];
  }

  /** A duration line that arrives before both ends of the interval are known
      places nothing and keeps the half-set interval. */
  lemma IncompleteIntervalIgnored(s: Scanner, ms: int)
    requires s.start == -1 && s.end == -1
    ensures Scan(s, [SilenceDuration]) == s
    ensures Scan(s, [SilenceStart(ms), SilenceDuration]) == s.(start := ms)
    ensures Scan(s, [SilenceEnd(ms), SilenceDuration]) == s.(end := ms)
  {
    assert [SilenceStart(ms), SilenceDuration][..1] == [SilenceStart(ms)];
    assert [SilenceEnd(ms), SilenceDuration][..1] == [SilenceEnd(ms)];
    assert [SilenceStart(ms)][..0] == [];
    assert [SilenceEnd(ms)][..0] == [];
  }

  /** A repeated start overwrites the earlier one. */
  lemma RepeatedStartOverwrites(s: Scanner, first: int, second: int, end: int)
    requires end != -1 && second != -1
    ensures Scan(s, [SilenceStart(first), SilenceStart(second), SilenceEnd(end), SilenceDuration]).marks
      == s.marks + [PlainMark(s.markId, Placement(second, end))]
  {
    ScanSnoc(s, [], SilenceStart(first));
    assert Scan(s, [SilenceStart(first)]) == s.(start := first);
    ScanSilence(s, [SilenceStart(first)], Silence(second, end));
    assert [SilenceStart(first)] + [SilenceStart(second), SilenceEnd(end), SilenceDuration]
      == [SilenceStart(first), SilenceStart(second), SilenceEnd(end), SilenceDuration];
  }

  // ---------------------------------------------------------------- one directory

  /** The configuration given to the command: any part may be missing. */
  datatype FfmpegOverride = FfmpegOverride(duration: Option<int>, noise: Option<int>)
  datatype ConfigOverride = ConfigOverride(ffmpeg: Option<FfmpegOverride>)

  const DefaultConfig: Config := Config(FfmpegConfig(DefaultDurationMs, DefaultNoiseDb))

  /** The configuration in effect: the one read (or the default), with each
      field of the override that is given written over it. */
  function Merged(config: Config, o: ConfigOverride): Config {
    match o.ffmpeg
    case None => config
    case Some(f) =>
      Config(FfmpegConfig(
        if f.duration.Some? then f.duration.value else config.ffmpeg.duration,
        if f.noise.Some? then f.noise.value else config.ffmpeg.noise))
  }

  /** Applying the override twice is applying it once, so overwriting the
      shared default object on every directory gives every directory the
      same configuration. A field the override gives does not depend on the
      configuration read; one it leaves out is the one read. */
  lemma MergedProperties(config: Config, other: Config, o: ConfigOverride)
    ensures Merged(Merged(config, o), o) == Merged(config, o)
    ensures var d := o.ffmpeg.Some? && o.ffmpeg.value.duration.Some?;
      (d ==> Merged(config, o).ffmpeg.duration == Merged(other, o).ffmpeg.duration) &&
      (!d ==> Merged(config, o).ffmpeg.duration == config.ffmpeg.duration)
    ensures var n := o.ffmpeg.Some? && o.ffmpeg.value.noise.Some?;
      (n ==> Merged(config, o).ffmpeg.noise == Merged(other, o).ffmpeg.noise) &&
      (!n ==> Merged(config, o).ffmpeg.noise == config.ffmpeg.noise)
  {
  }

  predicate IsConfigFile(f: string) {
    Basename(f) == LocalConfigFile
  }

  /** The config file of a listing: the last entry named `.audipomarks`. */
  function ConfigFileIn(listing: seq<string>): Option<string> {
    LastWhere(listing, IsConfigFile)
  }

  /** What the command is given: the filesystem, the tree below the working
      directory, what `readConfig` makes of a config file (the parsed config
      or the error it throws), what running ffmpeg with a configuration on a
      file prints (or the error), and the reading of printed seconds as
      milliseconds. */
  datatype Env = Env(
    fsys: FileSystem,
    tree: seq<Walk.Entry>,
    readConfig: string -> Outcome<Config>,
    ffmpeg: (string, FfmpegConfig) -> Outcome<string>,
    millis: string -> int)

  /** The audio files handled so far in a directory, the next mark id, and
      the error that stopped the directory, if any. */
  datatype Collect = Collect(stop: Option<Failure>, files: seq<AudioFile>, markId: int)

  /** The marks of one audio file and the counter after it: the scan from
      the directory's counter, thinned out. */
  function FileMarks(env: Env, stdout: string, markId: int): (seq<Mark>, int) {
    var s := Scan(Fresh(markId), OutputEvents(stdout, env.millis));
    (Normalized(s.marks), s.markId)
  }

  function FileStep(env: Env, dir: string, ffmpegConfig: FfmpegConfig, c: Collect, f: string): Collect {
    if c.stop.Some? then c
    else
      match env.ffmpeg(f, ffmpegConfig)
      case Failed(e) => c.(stop := Some(e))
      case Done(stdout) =>
        var (marks, next) := FileMarks(env, stdout, c.markId);
        Collect(None, c.files + [AudioFile(env.fsys.sizeOf(f), Relative(env.fsys.cwd, dir, f), marks)], next)
  }

  function FileSteps(env: Env, dir: string, ffmpegConfig: FfmpegConfig, c: Collect, audio: seq<string>): Collect
    decreases |audio|
  {
    if audio == [] then c
    else FileStep(env, dir, ffmpegConfig, FileSteps(env, dir, ffmpegConfig, c, audio[..|audio| - 1]), audio[|audio| - 1])
  }

  /** The files of a directory, resolved against it. */
  function Listing(env: Env, dir: string, children: seq<Walk.Entry>): seq<string> {
    Walk.GetFilesFromDir(env.fsys.cwd, dir, children)
  }

  /** The configuration read for a directory, before the override. */
  function BaseConfig(env: Env, listing: seq<string>): Outcome<Config> {
    match ConfigFileIn(listing)
    case None => Done(DefaultConfig)
    case Some(f) => env.readConfig(f)
  }

  /** `processDir`: the writes it makes (storage first, then config) or the
      error it throws. */
  function DirRun(env: Env, dir: string, children: seq<Walk.Entry>, o: ConfigOverride): Outcome<seq<Write>> {
    var listing := Listing(env, dir, children);
    match BaseConfig(env, listing)
    case Failed(e) => Failed(e)
    case Done(base) =>
      var config := Merged(base, o);
      var c := FileSteps(env, dir, config.ffmpeg, Collect(None, [], 1), Filter(listing, IsAudioFile));
      if c.stop.Some? then Failed(c.stop.value)
      else if |c.files| > 0 then
        Done([StorageWrite(Join(dir, LocalMarksFilename), Storage("", c.files)), ConfigWrite(Join(dir, LocalConfigFile), config)])
      else Done([])
  }

  lemma FileStepsSnoc(env: Env, dir: string, ffmpegConfig: FfmpegConfig, c: Collect, audio: seq<string>, i: int)
    requires 0 <= i < |audio|
    ensures FileSteps(env, dir, ffmpegConfig, c, audio[..i + 1])
      == FileStep(env, dir, ffmpegConfig, FileSteps(env, dir, ffmpegConfig, c, audio[..i]), audio[i])
  {
    assert audio[..i + 1][..i] == audio[..i];
  }

  lemma {:induction false} FileStopSticks(env: Env, dir: string, ffmpegConfig: FfmpegConfig, c: Collect, audio: seq<string>, more: seq<string>)
    requires FileSteps(env, dir, ffmpegConfig, c, audio).stop.Some?
    ensures FileSteps(env, dir, ffmpegConfig, c, audio + more) == FileSteps(env, dir, ffmpegConfig, c, audio)
    decreases |more|
  {
    if more == [] {
      assert audio + more == audio;
    } else {
      var m := more[..|more| - 1];
      assert (audio + more)[..|audio + more| - 1] == audio + m;
      FileStopSticks(env, dir, ffmpegConfig, c, audio, m);
    }
  }

  /** The directory's files, one after the other: each is analysed by
      ffmpeg, scanned from the directory's counter and thinned out. */
  method ProcessFiles(env: Env, dir: string, ffmpegConfig: FfmpegConfig, audioFiles: seq<string>) returns (c: Collect)
    ensures c == FileSteps(env, dir, ffmpegConfig, Collect(None, [], 1), audioFiles)
  {
    var markId := 1;
    var audipoMarksFiles: seq<AudioFile> := [];
    for i := 0 to |audioFiles|
      invariant FileSteps(env, dir, ffmpegConfig, Collect(None, [], 1), audioFiles[..i]) == Collect(None, audipoMarksFiles, markId)
    {
      var f := audioFiles[i];
      var out := env.ffmpeg(f, ffmpegConfig);
      if out.Failed? {
        FileStepFailed(env, dir, ffmpegConfig, audioFiles, i, audipoMarksFiles, markId);
        return Collect(Some(out.error), audipoMarksFiles, markId);
      }
      FileStepDone(env, dir, ffmpegConfig, audioFiles, i, audipoMarksFiles, markId);
      var marks;
      marks, markId := ScanOutput(out.value, env.millis, markId);
      var normalizedMarks := NormalizeMarks(marks);
      audipoMarksFiles := audipoMarksFiles + [AudioFile(env.fsys.sizeOf(f), Relative(env.fsys.cwd, dir, f), normalizedMarks)];
    }
    assert audioFiles[..|audioFiles|] == audioFiles;
    return Collect(None, audipoMarksFiles, markId);
  }

  /** A file ffmpeg fails on stops the directory with that error. */
  lemma FileStepFailed(env: Env, dir: string, ffmpegConfig: FfmpegConfig, audio: seq<string>, i: int, files: seq<AudioFile>, markId: int)
    requires 0 <= i < |audio| && env.ffmpeg(audio[i], ffmpegConfig).Failed?
    requires FileSteps(env, dir, ffmpegConfig, Collect(None, [], 1), audio[..i]) == Collect(None, files, markId)
    ensures FileSteps(env, dir, ffmpegConfig, Collect(None, [], 1), audio)
      == Collect(Some(env.ffmpeg(audio[i], ffmpegConfig).error), files, markId)
  {
    FileStepsSnoc(env, dir, ffmpegConfig, Collect(None, [], 1), audio, i);
    FileStopSticks(env, dir, ffmpegConfig, Collect(None, [], 1), audio[..i + 1], audio[i + 1..]);
    assert audio[..i + 1] + audio[i + 1..] == audio;
  }

  /** A file ffmpeg analyses adds its entry and advances the counter. */
  lemma FileStepDone(env: Env, dir: string, ffmpegConfig: FfmpegConfig, audio: seq<string>, i: int, files: seq<AudioFile>, markId: int)
    requires 0 <= i < |audio| && env.ffmpeg(audio[i], ffmpegConfig).Done?
    requires FileSteps(env, dir, ffmpegConfig, Collect(None, [], 1), audio[..i]) == Collect(None, files, markId)
    ensures var f := audio[i];
      var s := Scan(Fresh(markId), OutputEvents(env.ffmpeg(f, ffmpegConfig).value, env.millis));
      FileSteps(env, dir, ffmpegConfig, Collect(None, [], 1), audio[..i + 1])
        == Collect(None, files + [AudioFile(env.fsys.sizeOf(f), Relative(env.fsys.cwd, dir, f), Normalized(s.marks))], s.markId)
  {
    FileStepsSnoc(env, dir, ffmpegConfig, Collect(None, [], 1), audio, i);
  }

  /** The loop over the listing: the audio files in order, and the last
      config file. */
  method Analyze(listing: seq<string>) returns (audioFiles: seq<string>, configFile: Option<string>)
    ensures audioFiles == Filter(listing, IsAudioFile)
    ensures configFile == ConfigFileIn(listing)
  {
    audioFiles, configFile := [], None;
    for i := 0 to |listing|
      invariant audioFiles == Filter(listing[..i], IsAudioFile)
      invariant configFile == ConfigFileIn(listing[..i])
    {
      var f := listing[i];
      assert listing[..i + 1][..i] == listing[..i];
      if IsAudioFile(f) {
        audioFiles := audioFiles + [f];
      }
      if Basename(f) == LocalConfigFile {
        configFile := Some(f);
      }
    }
    assert listing[..|listing|] == listing;
  }

  /** `processDir(dir, configOverride)`: `children` lists `dir`. */
  method ProcessDir(env: Env, dir: string, children: seq<Walk.Entry>, configOverride: ConfigOverride) returns (r: Outcome<seq<Write>>)
    ensures r == DirRun(env, dir, children, configOverride)
  {
    var audioFiles, configFile := Analyze(Walk.GetFilesFromDir(env.fsys.cwd, dir, children));
    var config := DefaultConfig;
    if configFile.Some? {
      var read := env.readConfig(configFile.value);
      if read.Failed? {
        return Failed(read.error);
      }
      config := read.value;
    }
    var duration, noise := config.ffmpeg.duration, config.ffmpeg.noise;
    if configOverride.ffmpeg.Some? {
      if configOverride.ffmpeg.value.duration.Some? {
        duration := configOverride.ffmpeg.value.duration.value;
      }
      if configOverride.ffmpeg.value.noise.Some? {
        noise := configOverride.ffmpeg.value.noise.value;
      }
      config := Config(FfmpegConfig(duration, noise));
    }
    var c := ProcessFiles(env, dir, config.ffmpeg, audioFiles);
    if c.stop.Some? {
      return Failed(c.stop.value);
    }
    if |c.files| > 0 {
      var storageFilePath := Join(dir, LocalMarksFilename);
      var configFilePath := Join(dir, LocalConfigFile);
      return Done([StorageWrite(storageFilePath, Storage("", c.files)), ConfigWrite(configFilePath, config)]);
    }
    return Done([]);
  }

  // ---------------------------------------------------------------- what a directory's storage holds

  /** Ids strictly increasing along the list, all in `[lo, hi)`. */
  predicate IdsIncreasing(marks: seq<Mark>, lo: int, hi: int) {
    && (forall i :: 0 <= i < |marks| ==> lo <= marks[i].id < hi)
    && (forall i, j :: 0 <= i < j < |marks| ==> marks[i].id < marks[j].id)
  }

  /** What is left of a consecutively numbered list after dropping marks has
      increasing ids, with gaps where marks were dropped. */
  lemma {:induction false} SubsequenceOfNumbered(a: seq<Mark>, b: seq<Mark>, first: int)
    requires IsSubsequence(a, b) && NumberedFrom(b, first)
    ensures IdsIncreasing(a, first, first + |b|)
    decreases |b|
  {
    if a != [] {
      var b' := b[..|b| - 1];
      assert NumberedFrom(b', first);
      if a[|a| - 1] == b[|b| - 1] && IsSubsequence(a[..|a| - 1], b') {
        SubsequenceOfNumbered(a[..|a| - 1], b', first);
        assert forall i :: 0 <= i < |a| - 1 ==> a[i] == a[..|a| - 1][i];
      } else {
        SubsequenceOfNumbered(a, b', first);
      }
    }
  }

  lemma IdsIncreasingAppend(a: seq<Mark>, b: seq<Mark>, lo: int, mid: int, hi: int)
    requires IdsIncreasing(a, lo, mid) && IdsIncreasing(b, mid, hi) && lo <= mid <= hi
    ensures IdsIncreasing(a + b, lo, hi)
  {
  }

  /** Consecutive marks more than the minimum distance apart (or the
      earlier at the sentinel position -1), as `normalizeMarks` leaves them. */
  predicate Spaced(marks: seq<Mark>) {
    forall k :: 0 <= k < |marks| - 1 ==> marks[k].pos == -1 || marks[k + 1].pos - marks[k].pos > MinMarkDistanceMs
  }

  /** Ids all at least 1 and strictly increasing. */
  predicate IdsFromOne(marks: seq<Mark>) {
    && (forall i :: 0 <= i < |marks| ==> marks[i].id >= 1)
    && (forall i, j :: 0 <= i < j < |marks| ==> marks[i].id < marks[j].id)
  }

  /** The entry of an audio file: its path relative to the directory, its
      size, and spaced marks. */
  predicate RecordedFile(env: Env, dir: string, file: AudioFile, f: string) {
    file.filepath == Relative(env.fsys.cwd, dir, f) && file.fileSize == env.fsys.sizeOf(f) && Spaced(file.marklist)
  }

  /** One entry per audio file, in order, with ids from 1 below the counter. */
  predicate Recorded(env: Env, dir: string, files: seq<AudioFile>, audio: seq<string>, markId: int) {
    && |files| == |audio|
    && 1 <= markId && IdsIncreasing(AllMarks(files), 1, markId)
    && forall i :: 0 <= i < |files| ==> RecordedFile(env, dir, files[i], audio[i])
  }

  /** The marks of one file lie between the counter before and after it,
      increasing and spaced. */
  lemma FileMarksSound(env: Env, stdout: string, markId: int)
    ensures var (marks, next) := FileMarks(env, stdout, markId);
      markId <= next && IdsIncreasing(marks, markId, next) && Spaced(marks)
  {
    var s := Scan(Fresh(markId), OutputEvents(stdout, env.millis));
    ScanNumbered(Fresh(markId), OutputEvents(stdout, env.millis), markId);
    NormalizedIsSubsequence(s.marks);
    NormalizedSpacing(s.marks);
    SubsequenceOfNumbered(Normalized(s.marks), s.marks, markId);
  }

  lemma RecordedSnoc(env: Env, dir: string, files: seq<AudioFile>, audio: seq<string>, markId: int, added: AudioFile, next: int)
    requires audio != [] && Recorded(env, dir, files, audio[..|audio| - 1], markId)
    requires RecordedFile(env, dir, added, audio[|audio| - 1]) && markId <= next && IdsIncreasing(added.marklist, markId, next)
    ensures Recorded(env, dir, files + [added], audio, next)
  {
    IdsSnoc(files, added, markId, next);
    RecordedFilesSnoc(env, dir, files, audio, added);
  }

  lemma IdsSnoc(files: seq<AudioFile>, added: AudioFile, markId: int, next: int)
    requires 1 <= markId <= next && IdsIncreasing(AllMarks(files), 1, markId) && IdsIncreasing(added.marklist, markId, next)
    ensures IdsIncreasing(AllMarks(files + [added]), 1, next)
  {
    var files' := files + [added];
    assert files'[..|files|] == files;
    assert AllMarks(files') == AllMarks(files) + added.marklist;
    IdsIncreasingAppend(AllMarks(files), added.marklist, 1, markId, next);
  }

  lemma RecordedFilesSnoc(env: Env, dir: string, files: seq<AudioFile>, audio: seq<string>, added: AudioFile)
    requires audio != [] && |files| == |audio| - 1
    requires forall i :: 0 <= i < |files| ==> RecordedFile(env, dir, files[i], audio[..|audio| - 1][i])
    requires RecordedFile(env, dir, added, audio[|audio| - 1])
    ensures forall i :: 0 <= i < |audio| ==> RecordedFile(env, dir, (files + [added])[i], audio[i])
  {
    var files' := files + [added];
    var init := audio[..|audio| - 1];
    forall i | 0 <= i < |audio| ensures RecordedFile(env, dir, files'[i], audio[i]) {
      if i < |files| {
        assert files'[i] == files[i] && init[i] == audio[i];
        assert RecordedFile(env, dir, files[i], init[i]);
      }
    }
  }

  lemma FileStepSound(env: Env, dir: string, ffmpegConfig: FfmpegConfig, c: Collect, audio: seq<string>)
    requires audio != [] && c.stop.None? && Recorded(env, dir, c.files, audio[..|audio| - 1], c.markId)
    ensures var c' := FileStep(env, dir, ffmpegConfig, c, audio[|audio| - 1]);
      c'.stop.None? ==> Recorded(env, dir, c'.files, audio, c'.markId)
  {
    var f := audio[|audio| - 1];
    if env.ffmpeg(f, ffmpegConfig).Done? {
      var stdout := env.ffmpeg(f, ffmpegConfig).value;
      var (marks, next) := FileMarks(env, stdout, c.markId);
      FileMarksSound(env, stdout, c.markId);
      var added := AudioFile(env.fsys.sizeOf(f), Relative(env.fsys.cwd, dir, f), marks);
      RecordedSnoc(env, dir, c.files, audio, c.markId, added, next);
    }
  }

  /** The counter runs across the audio files of a directory and is never
      reset, so although thinning out leaves gaps, the ids of the directory's
      storage increase strictly from 1. Each file is recorded under its path
      relative to the directory with its size, and its marks are spaced. */
  lemma {:induction false} FileStepsSound(env: Env, dir: string, ffmpegConfig: FfmpegConfig, audio: seq<string>)
    ensures var c := FileSteps(env, dir, ffmpegConfig, Collect(None, [], 1), audio);
      c.stop.None? ==> Recorded(env, dir, c.files, audio, c.markId)
    decreases |audio|
  {
    if audio != [] {
      var init := audio[..|audio| - 1];
      FileStepsSound(env, dir, ffmpegConfig, init);
      var c := FileSteps(env, dir, ffmpegConfig, Collect(None, [], 1), init);
      if c.stop.None? {
        FileStepSound(env, dir, ffmpegConfig, c, audio);
      }
    }
  }

  /** The local storage of a directory: written next to its audio files,
      portable (no storage directory), one entry per audio file in order,
      each recorded under its relative path with its size and spaced marks,
      and the mark ids strictly increasing from 1. */
  predicate LocalStorage(env: Env, dir: string, audio: seq<string>, w: Write) {
    && w.StorageWrite?
    && w.path == Join(dir, LocalMarksFilename)
    && w.storage.externalStorageDirectory == ""
    && |w.storage.files| == |audio|
    && (forall i :: 0 <= i < |audio| ==> RecordedFile(env, dir, w.storage.files[i], audio[i]))
    && IdsFromOne(AllMarks(w.storage.files))
  }

  lemma RecordedStorage(env: Env, dir: string, files: seq<AudioFile>, audio: seq<string>, markId: int)
    requires Recorded(env, dir, files, audio, markId)
    ensures LocalStorage(env, dir, audio, StorageWrite(Join(dir, LocalMarksFilename), Storage("", files)))
  {
  }

  /** What `processDir` writes when it does not throw: nothing when the
      directory has no audio file; otherwise its local storage, followed by
      the configuration in effect. */
  lemma DirRunWrites(env: Env, dir: string, children: seq<Walk.Entry>, o: ConfigOverride)
    ensures var r := DirRun(env, dir, children, o);
      var listing := Listing(env, dir, children);
      var audio := Filter(listing, IsAudioFile);
      r.Done? ==>
        && BaseConfig(env, listing).Done?
        && (r.value == [] <==> audio == [])
        && (r.value != [] ==>
              && |r.value| == 2
              && LocalStorage(env, dir, audio, r.value[0])
              && r.value[1] == ConfigWrite(Join(dir, LocalConfigFile), Merged(BaseConfig(env, listing).value, o)))
  {
    var listing := Listing(env, dir, children);
    var audio := Filter(listing, IsAudioFile);
    if BaseConfig(env, listing).Done? {
      var config := Merged(BaseConfig(env, listing).value, o);
      var c := FileSteps(env, dir, config.ffmpeg, Collect(None, [], 1), audio);
      DirRunDone(env, dir, children, o, listing, audio, config, c);
      FileStepsSound(env, dir, config.ffmpeg, audio);
      if c.stop.None? && |c.files| > 0 {
        RecordedStorage(env, dir, c.files, audio, c.markId);
      }
    }
  }

  lemma DirRunDone(env: Env, dir: string, children: seq<Walk.Entry>, o: ConfigOverride,
                   listing: seq<string>, audio: seq<string>, config: Config, c: Collect)
    requires listing == Listing(env, dir, children) && audio == Filter(listing, IsAudioFile)
    requires BaseConfig(env, listing).Done? && config == Merged(BaseConfig(env, listing).value, o)
    requires c == FileSteps(env, dir, config.ffmpeg, Collect(None, [], 1), audio)
    ensures DirRun(env, dir, children, o).Done? <==> c.stop.None?
    ensures c.stop.None? && |c.files| == 0 ==> DirRun(env, dir, children, o).value == []
    ensures c.stop.None? && |c.files| > 0 ==>
      DirRun(env, dir, children, o).value
        == [StorageWrite(Join(dir, LocalMarksFilename), Storage("", c.files)), ConfigWrite(Join(dir, LocalConfigFile), config)]
  {
  }

  /** A listed file is stored under its bare name, and it is an audio file
      exactly when its name says so. */
  lemma ListedFile(cwd: string, dir: string, name: string)
    requires IsName(name)
    ensures var f := Walk.ResolveIn(cwd, dir, name);
      && Relative(cwd, dir, f) == name
      && Basename(f) == name
      && (IsAudioFile(f) <==> IsAudioFile(name))
  {
    var segs := ResolvedPath(cwd, dir).segs;
    Walk.ResolveInName(cwd, dir, name);
    RelativeToExtension(segs, [name]);
    assert JoinSegs([name]) == name;
    BasenameOf(segs + [name]);
    BasenameOfName(name);
  }

  /** The storage and the config land in the directory under their names. */
  lemma DirWritesLocation(cwd: string, dir: string)
    ensures var d := Resolve(cwd, dir);
      && Dirname(Join(d, LocalMarksFilename)) == d && Basename(Join(d, LocalMarksFilename)) == LocalMarksFilename
      && Dirname(Join(d, LocalConfigFile)) == d && Basename(Join(d, LocalConfigFile)) == LocalConfigFile
  {
    assert IsName(LocalMarksFilename) && IsName(LocalConfigFile);
    JoinedNameParts(ResolvedPath(cwd, dir).segs, LocalMarksFilename);
    JoinedNameParts(ResolvedPath(cwd, dir).segs, LocalConfigFile);
  }

  // ---------------------------------------------------------------- the command

  const DirectoryNotFound: string := "Directory not found"

  /** What a run leaves behind: the files written, in order, and the error
      that ended it, if one did (files written before it stay written). */
  datatype Report = Report(writes: seq<Write>, failure: Option<Failure>)

  /** The directories processed, each with its listing: with `recursive`,
      every directory below the working directory in pre-order; then, in
      any case, the working directory itself. */
  function Visits(env: Env, workingDir: string, recursive: bool): seq<Visit> {
    var absoluteWorkingDir := Resolve(env.fsys.cwd, workingDir);
    (if recursive then Walk.GetDirs(env.fsys.cwd, absoluteWorkingDir, env.tree) else []) + [(absoluteWorkingDir, env.tree)]
  }

  /** Every subdirectory of a recursive run is visited once, and the
      working directory itself comes last. */
  lemma VisitsShape(env: Env, workingDir: string, recursive: bool)
    requires Walk.WellNamed(env.tree)
    ensures var v := Visits(env, workingDir, recursive);
      && |v| == (if recursive then Walk.DirCount(env.tree) else 0) + 1
      && v[|v| - 1] == (Resolve(env.fsys.cwd, workingDir), env.tree)
  {
    var absoluteWorkingDir := Resolve(env.fsys.cwd, workingDir);
    Walk.GetDirsResolved(env.fsys.cwd, absoluteWorkingDir, env.tree);
    Walk.DirsBelowCount(ResolvedPath(env.fsys.cwd, absoluteWorkingDir).segs, env.tree);
  }

  /** A recursive run visits every directory of the tree with its own
      listing: the one a path `rel` leads to from the working directory is
      visited under the printed form of that path. */
  lemma VisitsEveryDir(env: Env, workingDir: string, rel: seq<string>, listing: seq<Walk.Entry>)
    requires Walk.WellNamed(env.tree) && Walk.IsDirAt(env.tree, rel, listing)
    ensures var segs := ResolvedPath(env.fsys.cwd, Resolve(env.fsys.cwd, workingDir)).segs;
      (Format(Path(true, segs + rel)), listing) in Visits(env, workingDir, true)
  {
    var absoluteWorkingDir := Resolve(env.fsys.cwd, workingDir);
    var segs := ResolvedPath(env.fsys.cwd, absoluteWorkingDir).segs;
    var p := segs + rel;
    Walk.NothingAtEmptyPath(env.tree, listing);
    assert p[..|segs|] == segs && p[|segs|..] == rel;
    Walk.DirsBelowMember(segs, env.tree, p, listing);
    var ds := Walk.DirsBelow(segs, env.tree);
    var k :| 0 <= k < |ds| && ds[k] == (p, listing);
    Walk.GetDirsResolved(env.fsys.cwd, absoluteWorkingDir, env.tree);
    assert Visits(env, workingDir, true)[k] == Walk.FormattedDirs(ds)[k];
  }

  /** One directory of the run: its absolute path and its listing. */
  type Visit = (string, seq<Walk.Entry>)

  /** `processDir` on each visited directory, with the same override. */
  function DirRunOf(env: Env, o: ConfigOverride): Visit -> Outcome<seq<Write>> {
    (v: Visit) => DirRun(env, v.0, v.1, o)
  }

  /** The directories one after the other, `run` processing each; the first
      error ends the run. */
  function DirsRun(run: Visit -> Outcome<seq<Write>>, visits: seq<Visit>): Report
    decreases |visits|
  {
    if visits == [] then Report([], None)
    else
      var r := DirsRun(run, visits[..|visits| - 1]);
      if r.failure.Some? then r
      else
        match run(visits[|visits| - 1])
        case Failed(e) => Report(r.writes, Some(e))
        case Done(w) => Report(r.writes + w, None)
  }

  function MarkRun(env: Env, workingDir: string, recursive: bool, o: ConfigOverride): Report {
    if !env.fsys.dirExists(workingDir) then Report([], Some(MarkError(DirectoryNotFound)))
    else DirsRun(DirRunOf(env, o), Visits(env, workingDir, recursive))
  }

  lemma DirsRunSnoc(run: Visit -> Outcome<seq<Write>>, visits: seq<Visit>, i: int)
    requires 0 <= i < |visits|
    ensures var r := DirsRun(run, visits[..i]);
      DirsRun(run, visits[..i + 1]) ==
        if r.failure.Some? then r
        else match run(visits[i])
          case Failed(e) => Report(r.writes, Some(e))
          case Done(w) => Report(r.writes + w, None)
  {
    assert visits[..i + 1][..i] == visits[..i];
  }

  lemma {:induction false} DirsRunFailureSticks(run: Visit -> Outcome<seq<Write>>, visits: seq<Visit>, more: seq<Visit>)
    requires DirsRun(run, visits).failure.Some?
    ensures DirsRun(run, visits + more) == DirsRun(run, visits)
    decreases |more|
  {
    if more == [] {
      assert visits + more == visits;
    } else {
      var m := more[..|more| - 1];
      assert (visits + more)[..|visits + more| - 1] == visits + m;
      DirsRunFailureSticks(run, visits, m);
    }
  }

  /** The default export, given the tree below the working directory. */
  method MarkCommand(env: Env, workingDir: string, recursive: bool, config: ConfigOverride) returns (report: Report)
    ensures report == MarkRun(env, workingDir, recursive, config)
  {
    var absoluteWorkingDir := Resolve(env.fsys.cwd, workingDir);
    if !env.fsys.dirExists(workingDir) {
      return Report([], Some(MarkError(DirectoryNotFound)));
    }
    var visits := Visits(env, workingDir, recursive);
    report := ProcessVisits(env, visits, config);
  }

  /** The loop over the visited directories: `processDir` on each, in order,
      until one throws. */
  method ProcessVisits(env: Env, visits: seq<Visit>, config: ConfigOverride) returns (report: Report)
    ensures report == DirsRun(DirRunOf(env, config), visits)
  {
    ghost var run := DirRunOf(env, config);
    var writes: seq<Write> := [];
    for i := 0 to |visits|
      invariant DirsRun(run, visits[..i]) == Report(writes, None)
    {
      var r := ProcessDir(env, visits[i].0, visits[i].1, config);
      DirsRunStep(run, visits, i, writes, r);
      if r.Failed? {
        return Report(writes, Some(r.error));
      }
      writes := writes + r.value;
    }
    assert visits[..|visits|] == visits;
    return Report(writes, None);
  }

  /** One directory of the loop: an error ends the run with it, a success
      adds the directory's writes. */
  lemma DirsRunStep(run: Visit -> Outcome<seq<Write>>, visits: seq<Visit>, i: int, writes: seq<Write>, r: Outcome<seq<Write>>)
    requires 0 <= i < |visits| && DirsRun(run, visits[..i]) == Report(writes, None) && r == run(visits[i])
    ensures r.Failed? ==> DirsRun(run, visits) == Report(writes, Some(r.error))
    ensures r.Done? ==> DirsRun(run, visits[..i + 1]) == Report(writes + r.value, None)
  {
    DirsRunSnoc(run, visits, i);
    if r.Failed? {
      DirsRunStopped(run, visits, i + 1);
    }
  }

  lemma DirsRunStopped(run: Visit -> Outcome<seq<Write>>, visits: seq<Visit>, i: int)
    requires 0 <= i <= |visits| && DirsRun(run, visits[..i]).failure.Some?
    ensures DirsRun(run, visits) == DirsRun(run, visits[..i])
  {
    DirsRunFailureSticks(run, visits[..i], visits[i..]);
    assert visits[..i] + visits[i..] == visits;
  }

  /** The directory was processed without an error. */
  predicate Processed(run: Visit -> Outcome<seq<Write>>, v: Visit) {
    run(v).Done?
  }

  /** A run that ends without an error processed every directory. */
  lemma {:induction false} DirsRunAllProcessed(run: Visit -> Outcome<seq<Write>>, visits: seq<Visit>)
    ensures DirsRun(run, visits).failure.None? ==> forall j :: 0 <= j < |visits| ==> Processed(run, visits[j])
    decreases |visits|
  {
    if visits != [] && DirsRun(run, visits).failure.None? {
      var init := visits[..|visits| - 1];
      DirsRunAllProcessed(run, init);
      assert forall i :: 0 <= i < |init| ==> init[i] == visits[i];
    }
  }

  /** A run that ends with an error stopped at the first directory that
      threw it. */
  lemma {:induction false} DirsRunFirstFailure(run: Visit -> Outcome<seq<Write>>, visits: seq<Visit>)
    ensures var r := DirsRun(run, visits);
      r.failure.Some? ==>
        exists j :: 0 <= j < |visits| && run(visits[j]) == Failed(r.failure.value) &&
          forall i :: 0 <= i < j ==> Processed(run, visits[i])
    decreases |visits|
  {
    if visits != [] {
      var init := visits[..|visits| - 1];
      DirsRunFirstFailure(run, init);
      DirsRunAllProcessed(run, init);
      assert forall i :: 0 <= i < |init| ==> init[i] == visits[i];
      var r := DirsRun(run, init);
      if r.failure.Some? {
        var j :| 0 <= j < |init| && run(init[j]) == Failed(r.failure.value) &&
          forall i :: 0 <= i < j ==> Processed(run, init[i]);
        assert visits[j] == init[j];
      }
    }
  }

  /** Every file a run wrote was written by a directory it processed. */
  lemma {:induction false} DirsRunWrites(run: Visit -> Outcome<seq<Write>>, visits: seq<Visit>)
    ensures forall w :: w in DirsRun(run, visits).writes ==>
      exists j :: 0 <= j < |visits| && Processed(run, visits[j]) && w in run(visits[j]).value
    decreases |visits|
  {
    if visits != [] {
      var init := visits[..|visits| - 1];
      var v := visits[|visits| - 1];
      DirsRunWrites(run, init);
      var r := DirsRun(run, init);
      if r.failure.None? && Processed(run, v) {
        var w := run(v).value;
        assert DirsRun(run, visits).writes == r.writes + w;
        forall x | x in r.writes + w
          ensures exists j :: (0 <= j < |visits| && Processed(run, visits[j]) && x in run(visits[j]).value)
        {
          if x in r.writes {
            var j :| 0 <= j < |init| && Processed(run, init[j]) && x in run(init[j]).value;
            assert visits[j] == init[j];
          } else {
            assert visits[|visits| - 1] == v;
          }
        }
      } else {
        assert forall j :: 0 <= j < |init| ==> visits[j] == init[j];
      }
    }
  }

  /** A missing working directory fails the run before anything is read or
      written; otherwise the working directory is processed last, whether or
      not the run is recursive. */
  lemma MarkRunSound(env: Env, workingDir: string, recursive: bool, o: ConfigOverride)
    ensures var r := MarkRun(env, workingDir, recursive, o);
      && (!env.fsys.dirExists(workingDir) ==> r == Report([], Some(MarkError(DirectoryNotFound))))
      && (!recursive && env.fsys.dirExists(workingDir) ==>
            var root := DirRun(env, Resolve(env.fsys.cwd, workingDir), env.tree, o);
            r == if root.Done? then Report(root.value, None) else Report([], Some(root.error)))
  {
    if !recursive && env.fsys.dirExists(workingDir) {
      var visits := Visits(env, workingDir, recursive);
      assert visits[..0] == [];
      DirsRunSnoc(DirRunOf(env, o), visits, 0);
      assert visits[..1] == visits;
    }
  }
}
