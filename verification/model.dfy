/** The mark-storage document and the constants of the tool.
    A storage lists audio files; each file carries an ordered list of marks
    (bookmarks at a position, in milliseconds, inside the audio). */
module Model {

  datatype Option<+T> = None | Some(value: T)

  /** The exceptions the commands raise: the operator's refusal (`Abort`), the
      two domain errors, and any other `Error` with its message. */
  datatype Failure =
    | Abort
    | JoinError(message: string)
    | MarkError(message: string)
    | StorageError(message: string)
    | PlainError(message: string)

  /** A computation that either finishes with a value or throws. */
  datatype Outcome<+T> = Done(value: T) | Failed(error: Failure)

  /** One bookmark. `markType` is the JSON field `type`; the four optional
      fields are payload that the tool carries through unchanged. */
  datatype Mark = Mark(
    id: int,
    pos: int,
    followingRangeState: Option<int>,
    state: Option<int>,
    tag: Option<string>,
    markType: Option<int>)

  /** One audio file's record: the recorded byte size is a drift check. */
  datatype AudioFile = AudioFile(fileSize: int, filepath: string, marklist: seq<Mark>)

  /** The unit of persistence, written as one JSON document. */
  datatype Storage = Storage(externalStorageDirectory: string, files: seq<AudioFile>)

  /** The per-directory configuration of the silence detector. */
  datatype FfmpegConfig = FfmpegConfig(duration: int, noise: int)
  datatype Config = Config(ffmpeg: FfmpegConfig)

  /** What the commands ask of the filesystem: the process's working directory
      and the probes `directoryExists`, `fileExists` and `statSync(..).size`. */
  datatype FileSystem = FileSystem(
    cwd: string,
    dirExists: string -> bool,
    fileExists: string -> bool,
    sizeOf: string -> int)

  /** A file the tool would write, with the value it would serialise there. */
  datatype Write = StorageWrite(path: string, storage: Storage) | ConfigWrite(path: string, config: Config)

  const GlobalMarksFilename: string := "global.audipomark"
  const LocalMarksFilename: string := "local.audipomark"
  const LocalConfigFile: string := ".audipomarks"
  const DefaultDurationMs: int := 1000
  const DefaultNoiseDb: int := 50
  /** Clearance left at the end of a silence interval, before the audio resumes. */
  const MarkClearance: int := 500
  /** Minimum distance between two kept marks. */
  const MinMarkDistanceMs: int := 1000

  /** A mark as the silence detector creates it: only `id` and `pos` are set. */
  function PlainMark(id: int, pos: int): Mark {
    Mark(id, pos, None, None, None, None)
  }

  /** All marks of a list of files, file after file. */
  function AllMarks(files: seq<AudioFile>): (r: seq<Mark>)
    ensures files == [] ==> r == []
  {
    if files == [] then [] else AllMarks(files[..|files| - 1]) + files[|files| - 1].marklist
  }

  lemma {:induction false} AllMarksAppend(a: seq<AudioFile>, b: seq<AudioFile>)
    ensures AllMarks(a + b) == AllMarks(a) + AllMarks(b)
    ensures |AllMarks(a + b)| == |AllMarks(a)| + |AllMarks(b)|
    decreases |b|
  {
    if b == [] {
      assert a + b == a;
    } else {
      var b' := b[..|b| - 1];
      var last := b[|b| - 1].marklist;
      assert (a + b)[..|a + b| - 1] == a + b';
      assert (a + b)[|a + b| - 1] == b[|b| - 1];
      AllMarksAppend(a, b');
      assert AllMarks(a + b) == AllMarks(a + b') + last;
      assert AllMarks(b) == AllMarks(b') + last;
      assert AllMarks(a) + AllMarks(b') + last == AllMarks(a) + (AllMarks(b') + last);
    }
  }

  /** The ids of `marks` are `start, start + 1, ...` in list order. */
  predicate NumberedFrom(marks: seq<Mark>, start: int) {
    forall i :: 0 <= i < |marks| ==> marks[i].id == start + i
  }

  lemma NumberedFromAppend(a: seq<Mark>, b: seq<Mark>, start: int)
    requires NumberedFrom(a, start) && NumberedFrom(b, start + |a|)
    ensures NumberedFrom(a + b, start)
  {
  }

  /** Appending one element after a concatenation. */
  lemma AppendOne<T>(before: seq<T>, middle: seq<T>, soFar: seq<T>, x: T, after: seq<T>)
    requires soFar == before + middle && after == soFar + [x]
    ensures after == before + (middle + [x])
  {
  }

  /** `a` is `b` with some elements left out, the rest unchanged and in order. */
  predicate IsSubsequence<T(==)>(a: seq<T>, b: seq<T>)
    decreases |b|
  {
    if a == [] then true
    else if b == [] then false
    else if a[|a| - 1] == b[|b| - 1] && IsSubsequence(a[..|a| - 1], b[..|b| - 1]) then true
    else IsSubsequence(a, b[..|b| - 1])
  }

  lemma {:induction false} SubsequenceLength<T>(a: seq<T>, b: seq<T>)
    requires IsSubsequence(a, b)
    ensures |a| <= |b|
    decreases |b|
  {
    if a != [] {
      if a[|a| - 1] == b[|b| - 1] && IsSubsequence(a[..|a| - 1], b[..|b| - 1]) {
        SubsequenceLength(a[..|a| - 1], b[..|b| - 1]);
      } else {
        SubsequenceLength(a, b[..|b| - 1]);
      }
    }
  }

  lemma {:induction false} SubsequenceOfSelf<T>(a: seq<T>)
    ensures IsSubsequence(a, a)
    decreases |a|
  {
    if a != [] {
      SubsequenceOfSelf(a[..|a| - 1]);
    }
  }

  /** A subsequence of a list is a subsequence of the list extended. */
  lemma SubsequenceExtend<T>(a: seq<T>, b: seq<T>, x: T)
    requires IsSubsequence(a, b)
    ensures IsSubsequence(a, b + [x])
  {
    if a != [] {
      assert (b + [x])[..|b|] == b;
    }
  }

  /** `xs.filter(keep)`. */
  function Filter<T>(xs: seq<T>, keep: T -> bool): (r: seq<T>)
    ensures |r| <= |xs|
    ensures forall i :: 0 <= i < |r| ==> keep(r[i])
    decreases |xs|
  {
    if xs == [] then []
    else
      var x := xs[|xs| - 1];
      Filter(xs[..|xs| - 1], keep) + (if keep(x) then [x] else [])
  }

  /** The filter only drops elements: what it keeps is a subsequence of the
      input, and every element it accepts is kept. */
  lemma {:induction false} FilterKept<T>(xs: seq<T>, keep: T -> bool)
    ensures IsSubsequence(Filter(xs, keep), xs)
    ensures forall i :: 0 <= i < |xs| && keep(xs[i]) ==> xs[i] in Filter(xs, keep)
    decreases |xs|
  {
    if xs != [] {
      var init := xs[..|xs| - 1];
      var x := xs[|xs| - 1];
      FilterKept(init, keep);
      var kept := Filter(init, keep);
      if keep(x) {
        assert Filter(xs, keep)[..|kept|] == kept;
        assert Filter(xs, keep)[|kept|] == x;
      } else {
        assert Filter(xs, keep) == kept;
        SubsequenceExtend(kept, init, x);
      }
      forall i | 0 <= i < |xs| - 1 && keep(xs[i]) ensures xs[i] in Filter(xs, keep) {
        assert xs[i] == init[i];
      }
    }
  }

  /** The last element that passes `p`, if any. */
  function LastWhere<T>(xs: seq<T>, p: T -> bool): Option<T>
    decreases |xs|
  {
    if xs == [] then None
    else if p(xs[|xs| - 1]) then Some(xs[|xs| - 1])
    else LastWhere(xs[..|xs| - 1], p)
  }

  /** An element is found exactly when one passes, and it is the last one
      that does. */
  lemma {:induction false} LastWhereIsLast<T>(xs: seq<T>, p: T -> bool)
    ensures LastWhere(xs, p).None? <==> forall i :: 0 <= i < |xs| ==> !p(xs[i])
    ensures LastWhere(xs, p).Some? ==>
      exists i :: 0 <= i < |xs| && xs[i] == LastWhere(xs, p).value && p(xs[i]) &&
        forall j :: i < j < |xs| ==> !p(xs[j])
    decreases |xs|
  {
    if xs != [] {
      var init := xs[..|xs| - 1];
      LastWhereIsLast(init, p);
      assert forall i :: 0 <= i < |init| ==> init[i] == xs[i];
      if p(xs[|xs| - 1]) {
        assert xs[|xs| - 1] == LastWhere(xs, p).value;
      } else if LastWhere(init, p).Some? {
        var i :| 0 <= i < |init| && init[i] == LastWhere(init, p).value && p(init[i]) &&
          forall j :: i < j < |init| ==> !p(init[j]);
        assert xs[i] == init[i];
      }
    }
  }
}
