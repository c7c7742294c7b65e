/** The mark-list algebra: renumbering and distance-based normalisation
    (src/services/audipomark.service.ts). */
module MarkList {
  import opened Model

  /** `enumarateMarks`: give the marks the ids `startWithId, startWithId + 1, ...`
      in list order and touch nothing else. */
  function Enumerate(marks: seq<Mark>, startWithId: int): (r: seq<Mark>)
    ensures |r| == |marks|
  {
    if marks == [] then []
    else [marks[0].(id := startWithId)] + Enumerate(marks[1..], startWithId + 1)
  }

  /** What `enumarateMarks` promises: the ids count up from `startWithId`
      and every other field of every mark is left as it was. */
  lemma {:induction false} EnumerateSound(marks: seq<Mark>, startWithId: int)
    ensures var r := Enumerate(marks, startWithId);
      && NumberedFrom(r, startWithId)
      && forall i :: 0 <= i < |r| ==> r[i].(id := marks[i].id) == marks[i]
    decreases |marks|
  {
    if marks != [] {
      EnumerateSound(marks[1..], startWithId + 1);
      var r := Enumerate(marks, startWithId);
      assert forall i :: 1 <= i < |r| ==> r[i] == Enumerate(marks[1..], startWithId + 1)[i - 1];
    }
  }

  /** Renumbering two lists in a row, the second from where the first stopped,
      is renumbering their concatenation: the counter threaded through split and
      join gives one contiguous numbering. */
  lemma EnumerateAppend(a: seq<Mark>, b: seq<Mark>, start: int)
    ensures Enumerate(a + b, start) == Enumerate(a, start) + Enumerate(b, start + |a|)
  {
    EnumerateSound(a + b, start);
    EnumerateSound(a, start);
    EnumerateSound(b, start + |a|);
    var l, r := Enumerate(a + b, start), Enumerate(a, start) + Enumerate(b, start + |a|);
    assert |l| == |r|;
    forall i | 0 <= i < |l| ensures l[i] == r[i] {
      if i < |a| {
        assert (a + b)[i] == a[i];
      } else {
        assert (a + b)[i] == b[i - |a|];
      }
    }
  }

  /** Renumbering only depends on the non-id fields. */
  lemma EnumerateTwice(marks: seq<Mark>, first: int, second: int)
    ensures Enumerate(Enumerate(marks, first), second) == Enumerate(marks, second)
  {
    EnumerateSound(marks, first);
    EnumerateSound(Enumerate(marks, first), second);
    EnumerateSound(marks, second);
    var l, r := Enumerate(Enumerate(marks, first), second), Enumerate(marks, second);
    assert |l| == |r|;
    forall i | 0 <= i < |l| ensures l[i] == r[i] {
    }
  }

  /** One mark counter threaded through a list of files: each file's marks
      are renumbered from where the previous file stopped. */
  function RenumberFiles(files: seq<AudioFile>, start: int): (r: seq<AudioFile>)
    ensures |r| == |files|
    decreases |files|
  {
    if files == [] then []
    else
      var init := files[..|files| - 1];
      var last := files[|files| - 1];
      RenumberFiles(init, start) + [last.(marklist := Enumerate(last.marklist, start + |AllMarks(init)|))]
  }

  /** Renumbering touches only the mark ids: every file keeps its other
      fields and the length of its mark list. */
  lemma {:induction false} RenumberFilesKeeps(files: seq<AudioFile>, start: int)
    ensures forall i :: 0 <= i < |files| ==>
      var r := RenumberFiles(files, start)[i];
      r.(marklist := files[i].marklist) == files[i] && |r.marklist| == |files[i].marklist|
    decreases |files|
  {
    if files != [] {
      var init := files[..|files| - 1];
      RenumberFilesKeeps(init, start);
      var r := RenumberFiles(files, start);
      assert r[..|init|] == RenumberFiles(init, start);
      forall i | 0 <= i < |init| ensures r[i] == RenumberFiles(init, start)[i] && files[i] == init[i] { }
    }
  }

  /** Read file after file, the renumbered marks are the concatenated marks
      renumbered: one contiguous numbering from `start`. */
  lemma {:induction false} RenumberFilesMarks(files: seq<AudioFile>, start: int)
    ensures AllMarks(RenumberFiles(files, start)) == Enumerate(AllMarks(files), start)
    decreases |files|
  {
    if files != [] {
      var init := files[..|files| - 1];
      var last := files[|files| - 1];
      var r := RenumberFiles(files, start);
      RenumberFilesMarks(init, start);
      assert r[..|r| - 1] == RenumberFiles(init, start);
      EnumerateAppend(AllMarks(init), last.marklist, start);
    }
  }

  lemma RenumberFilesNumbered(files: seq<AudioFile>, start: int)
    ensures NumberedFrom(AllMarks(RenumberFiles(files, start)), start)
    ensures |AllMarks(RenumberFiles(files, start))| == |AllMarks(files)|
  {
    RenumberFilesMarks(files, start);
    EnumerateSound(AllMarks(files), start);
  }

  /** Renumbering a list in two parts: the second continues the count. */
  lemma RenumberFilesSnoc(files: seq<AudioFile>, f: AudioFile, start: int)
    ensures RenumberFiles(files + [f], start) ==
      RenumberFiles(files, start) + [f.(marklist := Enumerate(f.marklist, start + |AllMarks(files)|))]
  {
    assert (files + [f])[..|files|] == files;
  }

  /** One more file numbered on from where the counter stands extends the
      renumbered list by that file. */
  lemma RenumberStep(before: seq<AudioFile>, files: seq<AudioFile>, f: AudioFile, start: int,
                     soFar: seq<AudioFile>, markId: int, after: seq<AudioFile>)
    requires soFar == before + RenumberFiles(files, start) && markId == start + |AllMarks(files)|
    requires after == soFar + [f.(marklist := Enumerate(f.marklist, markId))]
    ensures after == before + RenumberFiles(files + [f], start)
    ensures markId + |f.marklist| == start + |AllMarks(files + [f])|
  {
    RenumberFilesSnoc(files, f, start);
    assert (files + [f])[..|files|] == files;
  }

  /** A file with its marks numbered from `id`. */
  function Renumbered(f: AudioFile, id: int): AudioFile {
    f.(marklist := Enumerate(f.marklist, id))
  }

  /** Each renumbered file has its marks numbered on from the marks of the
      files before it. */
  lemma {:induction false} RenumberFilesAt(files: seq<AudioFile>, start: int, i: int)
    requires 0 <= i < |files|
    ensures RenumberFiles(files, start)[i]
      == Renumbered(files[i], start + |AllMarks(files[..i])|)
    decreases |files|
  {
    var init := files[..|files| - 1];
    if i < |init| {
      RenumberFilesAt(init, start, i);
      assert init[..i] == files[..i];
    }
  }

  /** Renumbering two lists of files in a row, the second from where the first
      stopped, is renumbering their concatenation. */
  lemma RenumberFilesConcat(a: seq<AudioFile>, b: seq<AudioFile>, start: int)
    ensures RenumberFiles(a + b, start) == RenumberFiles(a, start) + RenumberFiles(b, start + |AllMarks(a)|)
  {
    var l, r := RenumberFiles(a + b, start), RenumberFiles(a, start) + RenumberFiles(b, start + |AllMarks(a)|);
    forall i | 0 <= i < |l| ensures l[i] == r[i] {
      RenumberFilesConcatAt(a, b, start, i);
    }
  }

  lemma RenumberFilesConcatAt(a: seq<AudioFile>, b: seq<AudioFile>, start: int, i: int)
    requires 0 <= i < |a| + |b|
    ensures RenumberFiles(a + b, start)[i]
      == (RenumberFiles(a, start) + RenumberFiles(b, start + |AllMarks(a)|))[i]
  {
    if i < |a| {
      RenumberFilesConcatLeft(a, b, start, i);
    } else {
      RenumberFilesConcatRight(a, b, start, i - |a|);
    }
  }

  lemma RenumberFilesConcatLeft(a: seq<AudioFile>, b: seq<AudioFile>, start: int, i: int)
    requires 0 <= i < |a|
    ensures RenumberFiles(a + b, start)[i] == RenumberFiles(a, start)[i]
  {
    RenumberFilesAt(a + b, start, i);
    RenumberFilesAt(a, start, i);
    assert (a + b)[..i] == a[..i];
    assert (a + b)[i] == a[i];
  }

  lemma RenumberFilesConcatRight(a: seq<AudioFile>, b: seq<AudioFile>, start: int, k: int)
    requires 0 <= k < |b|
    ensures RenumberFiles(a + b, start)[|a| + k] == RenumberFiles(b, start + |AllMarks(a)|)[k]
  {
    RenumberFilesAt(a + b, start, |a| + k);
    RenumberFilesAt(b, start + |AllMarks(a)|, k);
    assert (a + b)[|a| + k] == b[k];
    AllMarksCountPrefix(a, b, k);
  }

  lemma AllMarksCountPrefix(a: seq<AudioFile>, b: seq<AudioFile>, k: int)
    requires 0 <= k <= |b|
    ensures |AllMarks((a + b)[..|a| + k])| == |AllMarks(a)| + |AllMarks(b[..k])|
  {
    assert (a + b)[..|a| + k] == a + b[..k];
    AllMarksAppend(a, b[..k]);
  }

  /** The position the next mark is compared with: `-1` (the source's "nothing
      kept yet" sentinel) or the position of the last kept mark. */
  function LastKeptPos(kept: seq<Mark>): int {
    if kept == [] then -1 else kept[|kept| - 1].pos
  }

  /** The keep rule of the loop: nothing kept yet (or, through the sentinel,
      a kept mark at position -1), or strictly more than the minimum distance
      past the last kept position. */
  predicate KeepsNext(lastMarkPos: int, mark: Mark) {
    lastMarkPos == -1 || mark.pos - lastMarkPos > MinMarkDistanceMs
  }

  /** `normalizeMarks`, as the left-to-right pass it is: the specification of
      NormalizeMarks below. Defined on the last element so that it follows the loop. */
  function Normalized(marks: seq<Mark>): (r: seq<Mark>)
    decreases |marks|
  {
    if marks == [] then []
    else
      var kept := Normalized(marks[..|marks| - 1]);
      var mark := marks[|marks| - 1];
      if KeepsNext(LastKeptPos(kept), mark) then kept + [mark] else kept
  }

  /** The loop of `normalizeMarks`, updating `lastMarkPos` and pushing kept marks. */
  method NormalizeMarks(marks: seq<Mark>) returns (normalizedMarks: seq<Mark>)
    ensures normalizedMarks == Normalized(marks)
  {
    var lastMarkPos := -1;
    normalizedMarks := [];
    var i := 0;
    while i < |marks|
      invariant 0 <= i <= |marks|
      invariant normalizedMarks == Normalized(marks[..i])
      invariant lastMarkPos == LastKeptPos(normalizedMarks)
    {
      var mark := marks[i];
      assert marks[..i + 1][..i] == marks[..i];
      if lastMarkPos == -1 || mark.pos - lastMarkPos > MinMarkDistanceMs {
        normalizedMarks := normalizedMarks + [mark];
        lastMarkPos := mark.pos;
      }
      i := i + 1;
    }
    assert marks[..i] == marks;
  }

  /** The output is an order-preserving subsequence of the input: marks are
      copied unchanged (ids included) and only ever dropped. */
  lemma {:induction false} NormalizedIsSubsequence(marks: seq<Mark>)
    ensures IsSubsequence(Normalized(marks), marks)
    decreases |marks|
  {
    if marks != [] {
      var prefix := marks[..|marks| - 1];
      NormalizedIsSubsequence(prefix);
      var kept := Normalized(prefix);
      if KeepsNext(LastKeptPos(kept), marks[|marks| - 1]) {
        assert (kept + [marks[|marks| - 1]])[..|kept|] == kept;
      }
    }
  }

  /** A non-empty input always keeps its first mark. */
  lemma {:induction false} NormalizedKeepsFirst(marks: seq<Mark>)
    requires marks != []
    ensures Normalized(marks) != [] && Normalized(marks)[0] == marks[0]
    decreases |marks|
  {
    if |marks| > 1 {
      var prefix := marks[..|marks| - 1];
      NormalizedKeepsFirst(prefix);
      assert prefix[0] == marks[0];
    }
  }

  /** Consecutive output marks are more than the minimum distance apart, unless
      the earlier one sits at the sentinel position -1. For non-negative
      positions this is the promised spacing. */
  lemma {:induction false} NormalizedSpacing(marks: seq<Mark>)
    ensures forall i :: 0 <= i < |Normalized(marks)| - 1 ==>
      Normalized(marks)[i].pos == -1
      || Normalized(marks)[i + 1].pos - Normalized(marks)[i].pos > MinMarkDistanceMs
    decreases |marks|
  {
    if marks != [] {
      NormalizedSpacing(marks[..|marks| - 1]);
    }
  }

  lemma NormalizedSpacingNonNegative(marks: seq<Mark>, i: int)
    requires forall k :: 0 <= k < |marks| ==> marks[k].pos >= 0
    requires 0 <= i < |Normalized(marks)| - 1
    ensures Normalized(marks)[i + 1].pos - Normalized(marks)[i].pos > MinMarkDistanceMs
  {
    NormalizedSpacing(marks);
    NormalizedIsSubsequence(marks);
    SubsequenceMembers(Normalized(marks), marks, i);
  }

  lemma {:induction false} SubsequenceMembers<T>(a: seq<T>, b: seq<T>, i: int)
    requires IsSubsequence(a, b) && 0 <= i < |a|
    ensures a[i] in b
    decreases |b|
  {
    if a[|a| - 1] == b[|b| - 1] && IsSubsequence(a[..|a| - 1], b[..|b| - 1]) {
      if i < |a| - 1 {
        SubsequenceMembers(a[..|a| - 1], b[..|b| - 1], i);
      }
    } else {
      SubsequenceMembers(a, b[..|b| - 1], i);
    }
  }

  /** Normalising twice changes nothing. */
  lemma {:induction false} NormalizedIdempotent(marks: seq<Mark>)
    ensures Normalized(Normalized(marks)) == Normalized(marks)
    decreases |marks|
  {
    if marks != [] {
      var prefix := marks[..|marks| - 1];
      var mark := marks[|marks| - 1];
      var kept := Normalized(prefix);
      NormalizedIdempotent(prefix);
      if KeepsNext(LastKeptPos(kept), mark) {
        assert (kept + [mark])[..|kept|] == kept;
      }
    }
  }

  /** The left-to-right character of the rule: appending a mark keeps it exactly
      when it passes the rule against the last kept mark, and never changes what
      was kept before. */
  lemma NormalizedSnoc(marks: seq<Mark>, mark: Mark)
    ensures Normalized(marks + [mark]) ==
      if KeepsNext(LastKeptPos(Normalized(marks)), mark)
      then Normalized(marks) + [mark] else Normalized(marks)
  {
    assert (marks + [mark])[..|marks|] == marks;
  }

  /** Example: with the 1000 ms threshold, positions 0, 500, 1600 keep 0 and 1600 —
      500 is too close to the kept 0, and 1600 is compared with 0, not 500. */
  lemma NormalizedExample()
    ensures Normalized([PlainMark(1, 0), PlainMark(2, 500), PlainMark(3, 1600)])
         == [PlainMark(1, 0), PlainMark(3, 1600)]
  {
    var ms := [PlainMark(1, 0), PlainMark(2, 500), PlainMark(3, 1600)];
    assert ms[..1][..0] == [];
    assert Normalized(ms[..1]) == [PlainMark(1, 0)];
    assert ms[..2][..1] == ms[..1];
    assert Normalized(ms[..2]) == [PlainMark(1, 0)];
    assert ms[..3][..2] == ms[..2];
  }

  /** A mark exactly the minimum distance after the last kept one, or before it,
      is dropped. */
  lemma NormalizedDropsAtThreshold(first: Mark, next: Mark)
    requires first.pos != -1
    requires next.pos <= first.pos + MinMarkDistanceMs
    ensures Normalized([first, next]) == [first]
  {
    assert [first, next][..1] == [first];
    assert [first][..0] == [];
    assert Normalized([first]) == [first];
  }
}
