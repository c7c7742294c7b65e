# audipomarks, modelled in Dafny

audipomarks is a command-line tool that keeps "marks" (bookmarks at a millisecond
position inside an audio file) in JSON documents called storages. A storage
lists audio files; each file carries its recorded byte size, its path and an
ordered mark list. The tool has three commands:

- `split` takes one flat storage exported from a phone. It re-roots every
  entry under the directory holding the storage, groups the entries by
  directory and checks each group against the disk, asking the operator about
  each discrepancy. It then writes one portable `local.audipomark` per
  surviving directory, with mark ids renumbered from 1.
- `join` walks a tree depth-first. It collects every `local.audipomark` below
  the working directory, re-roots the entries and renumbers all their marks
  with one counter. The result is a single `global.audipomark`.
- `mark` runs the ffmpeg silence detector on every audio file of a directory
  (optionally of every subdirectory too). It turns each reported silence into
  a mark, thins the marks out and writes a local storage and the configuration
  that was used.

The older versions of `split` and `join` (src/split.ts, src/join.ts) are
modelled too, together with the mark-list algebra, the storage and
configuration schemas, the validation-error formatter, the audio-file test,
the yes-answer test and the working-tree test.

The filesystem, the operator's answers, the storage and configuration
readers and the ffmpeg run are inputs to the model (oracle functions and
sequences). Each command then becomes a deterministic computation:

- A command is a method whose loops follow the source. Each method is proved
  equal to a specification function that folds one step per loop iteration.
- The properties are proved about those functions.
- The central theorem of each engine: the operator's answers only decide
  whether the run aborts. When it finishes, its output equals an answer-free
  reference definition.

Modules, one per source file plus support:

| module | file | models |
|---|---|---|
| `Model` | model.dfy | the storage datatypes, errors, outcomes, constants, generic list helpers |
| `Text` | text.dfy | lower-casing, `split`/`join` on one character |
| `Json` | json.dfy | the values `JSON.parse` yields, property lookup |
| `Paths` | paths.dfy | Node's POSIX `path` (`join`, `resolve`, `relative`, `dirname`, `basename`) on segment lists |
| `Walk` | walk.dfy | directory trees and the three recursive generators |
| `MarkList` | marklist.dfy | `enumarateMarks`, `normalizeMarks`, renumbering across files |
| `Utils` | utils.dfy | `isChildOfPath`, `isRecord`, `assertIsString` |
| `Validate` | validate.dfy | `formatZodErrors`, `assertNoZodErrors` |
| `Schema` | schema.dfy | the strict storage shapes and the config shape, with decoders |
| `Prompt` | prompt.dfy | `yesRegExp` and the `[Y/n]`, `[Y/a/n]` answer readings |
| `FileType` | filetype.dfy | `isAudioFile` |
| `Split` | split.ts → split.dfy | the current `split` command |
| `LegacySplit` | legacy_split.dfy | src/split.ts |
| `JoinCommand` | join.dfy | the current `join` command |
| `LegacyJoin` | legacy_join.dfy | src/join.ts |
| `MarkCommand` | mark.dfy | the `mark` command |

## Behaviour worth knowing

The model follows the code in each of these points.

- **Zero survivors.** A `split` group that passes the directory checks but
  keeps no entry still gets a storage written, with an empty `files` list
  (src/commands/split.ts:202-219).
- **Approved size mismatch.** Current `split` keeps the entry, with the real
  size in place of the recorded one (src/commands/split.ts:166-198). The older
  src/split.ts skips such an entry instead.
- **A "no" answer.** Any answer to a `split` question other than yes, all or
  empty aborts the whole run (src/commands/split.ts:150-156), as does any
  answer to a `join` question other than yes or empty
  (src/commands/join.ts:48-49); it never excludes just the one entry.
- **No partial writes on abort.** `split` writes nothing once it aborts,
  because every group is validated before the first write
  (src/commands/split.ts:55-62).
- **The working directory itself.** It is not part of its own subtree: `isChildOfPath`
  is false for it (src/utils.ts:33), so entries lying directly in it are
  dropped as "outside".
- **Mark ids.** The schema accepts any number as `id`, integral or not
  (src/schemas/audipomark.schema.ts:10).

## Model

| member | source | states |
|---|---|---|
| `Model.FilterKept` | src/commands/mark.ts:46-49 | the audio files picked from a listing keep listing order, and every listed file that passes the test is picked |
| `Model.LastWhereIsLast` | src/commands/mark.ts:50-52 | the config file found is the last matching entry of the listing; none is found exactly when no entry matches |
| `Text.SplitJoin` | src/commands/mark.ts:91 | splitting pieces joined with a separator gives the pieces back |
| `Text.JoinSplit` | src/commands/mark.ts:90-91 | joining the pieces of a split gives the string back |
| `Json.GetFinds` | src/services/validate.service.ts:10-11 | a property lookup finds the first property with that key, and misses exactly when no property has it |
| `Paths.JoinAbsolute` | src/commands/split.ts:74-79 | joining onto an absolute directory gives an absolute normal path |
| `Paths.RejoinParent` | src/commands/split.ts:80-84 | the directory resolved from a path's dirname, joined with the path relative to it, gives the path back |
| `Paths.RejoinChild` | src/commands/split.ts:80-84 | for an absolute normal path, that directory is its parent and the relative path is its last name |
| `Paths.JoinedNameParts` | src/commands/split.ts:215 | joining a plain name onto a directory gives a path whose dirname is the directory and whose basename is the name |
| `Walk.FilesBelowCount` | src/commands/join.ts:73-83 | the walk yields as many paths as the tree has files |
| `Walk.FilesBelowMember` | src/commands/join.ts:73-83 | a path is yielded exactly when it leads, name by name, from the walked directory to a file of the tree |
| `Walk.FilesBelowDistinct` | src/commands/join.ts:73-83 | when no listing names two entries alike, no path is yielded twice |
| `Walk.FilesBelowPaths` | src/commands/join.ts:73-83 | every yielded path lies strictly below the walked directory and is normal |
| `Walk.GetFilesResolved` | src/commands/join.ts:73-83 | `getFiles` yields the absolute paths of the tree's files depth-first, each subdirectory descended at its place in the listing |
| `Walk.GetFilesFromDirResolved` | src/commands/mark.ts:151-160 | `getFilesFromDir` yields the absolute paths of the directory's own non-directory entries, in listing order |
| `Walk.GetDirsResolved` | src/commands/mark.ts:162-172 | `getDirs` yields every directory below the root in pre-order, with its listing, the root excluded |
| `Walk.DirsBelowCount` | src/commands/mark.ts:162-172 | the walk yields as many directories as the tree has |
| `Walk.DirsBelowMember` | src/commands/mark.ts:162-172 | a directory is yielded with a listing exactly when a path leads from the walked directory to a directory of the tree with that listing |
| `Walk.DirsBelowDistinct` | src/commands/mark.ts:162-172 | when no listing names two entries alike, no directory is yielded twice |
| `MarkList.Enumerate` | src/services/audipomark.service.ts:19-27 | the result has as many marks as the input |
| `MarkList.EnumerateSound` | src/services/audipomark.service.ts:19-27 | the i-th mark has id `startWithId + i`; every other field is unchanged |
| `MarkList.EnumerateAppend` | src/services/audipomark.service.ts:19-27 | renumbering a concatenation renumbers the second part from where the first stopped |
| `MarkList.EnumerateTwice` | src/services/audipomark.service.ts:19-27 | renumbering twice is renumbering once with the last start |
| `MarkList.RenumberFilesKeeps` | src/commands/join.ts:57-64 | renumbering a list of files changes only their marks' ids, not their number |
| `MarkList.RenumberFilesAt` | src/commands/join.ts:57-65 | each renumbered file keeps everything but its mark ids, which continue from the number of marks in the files before it |
| `MarkList.RenumberFilesMarks` | src/commands/join.ts:28-65 | the marks of the renumbered files are all the marks, in order, numbered by one counter |
| `MarkList.RenumberFilesNumbered` | src/commands/join.ts:28-65 | the renumbered ids run consecutively from the start |
| `MarkList.RenumberFilesConcat` | src/commands/join.ts:57-65 | renumbering two lists of files continues the counter from the first list into the second |
| `MarkList.NormalizeMarks` | src/services/audipomark.service.ts:29-39 | the loop over `lastMarkPos` computes the thinned-out list |
| `MarkList.NormalizedIsSubsequence` | src/services/audipomark.service.ts:29-39 | the result is an order-preserving subsequence of the input, marks copied unchanged |
| `MarkList.NormalizedKeepsFirst` | src/services/audipomark.service.ts:30-33 | a non-empty input keeps its first mark |
| `MarkList.NormalizedSnoc` | src/services/audipomark.service.ts:33-36 | the thinning rule unfolded at `marks + [mark]`: a further mark is kept exactly when the last kept position is -1 or the mark lies more than 1000 ms past it |
| `MarkList.NormalizedDropsAtThreshold` | src/services/audipomark.service.ts:33 | an instance of the rule for the two-mark list `[first, next]`: a second mark at most 1000 ms after a placed first mark (or before it) is dropped |
| `MarkList.NormalizedSpacing` | src/services/audipomark.service.ts:33-36 | consecutive kept marks are more than 1000 ms apart, unless the earlier one sits at -1 |
| `MarkList.NormalizedSpacingNonNegative` | src/services/audipomark.service.ts:33-36 | for non-negative positions, consecutive kept marks are more than 1000 ms apart |
| `MarkList.NormalizedIdempotent` | src/services/audipomark.service.ts:29-39 | thinning out twice is thinning out once |
| `MarkList.NormalizedExample` | src/services/audipomark.service.ts:33 | positions 0, 500, 1600 keep 0 and 1600 |
| `Utils.IsChildOfPathIff` | src/utils.ts:30-35 | `isChildOfPath` holds exactly when the directory lies strictly below the parent and its first name below the parent does not begin with ".." |
| `Utils.NotChildOfItself` | src/utils.ts:31-33 | a directory is not a child of itself |
| `Utils.OutsideIsNotChild` | src/utils.ts:33 | nothing outside the parent's subtree is a child |
| `Utils.NameIsChild` | src/utils.ts:30-35 | a name not beginning with ".." appended to a directory is a child of it |
| `Utils.DotDotNamedChildIsNotChild` | src/utils.ts:33 | a real subdirectory named like "..hidden" is reported as not a child |
| `Utils.AssertIsString` | src/utils.ts:19-23 | passes exactly the strings through and throws "Data is empty" for anything else |
| `Validate.OwnErrors` | src/services/validate.service.ts:9-13 | a node has errors of its own exactly when it is an object whose `_errors` is a non-empty array |
| `Validate.OwnLine` | src/services/validate.service.ts:9-15 | a node emits no line of its own exactly when it has no errors; otherwise one line: path, ": ", the errors joined by "; ", newline |
| `Validate.ChildPath` | src/services/validate.service.ts:21-24 | a child's path is the key under the root, `parent.key` below it |
| `Validate.FormatEmptyIff` | src/services/validate.service.ts:4-29 | the text is empty exactly when no node reachable through records other than `_errors` has errors |
| `Validate.FormatChildrenEmptyIff` | src/services/validate.service.ts:16-27 | the children's text is empty exactly when none of the remaining children reaches an error |
| `Validate.FormatEndsWithNewline` | src/services/validate.service.ts:4-29 | the text is a sequence of whole lines |
| `Validate.SingleMessage` | src/services/validate.service.ts:9-15 | one message at a path gives the line `path: message` |
| `Validate.RootMessage` | src/services/validate.service.ts:6-14 | a root-level message gives a line beginning with ": " |
| `Validate.NestedMessage` | src/services/validate.service.ts:16-27 | a nested error is reported under its dotted path, as in `files.0` |
| `Validate.AssertNoZodErrors` | src/services/validate.service.ts:31-37 | passes the data exactly when parsing succeeded, otherwise throws a StorageError with the formatted text |
| `Schema.StorageNeedsEveryMark` | src/schemas/audipomark.schema.ts:19-32 | a valid storage holds only valid marks |
| `Schema.MarkExtraKeyRejected` | src/schemas/audipomark.schema.ts:17 | a mark with an undeclared key is invalid |
| `Schema.MarkMissingPosRejected` | src/schemas/audipomark.schema.ts:10-11 | a mark without `pos` is invalid |
| `Schema.MarkFractionalAccepted` | src/schemas/audipomark.schema.ts:10-11 | fractional or negative `id` and `pos` pass |
| `Schema.MarkNullTagRejected` | src/schemas/audipomark.schema.ts:12-15 | an optional field given as null is invalid |
| `Schema.ConfigStrictness` | src/schemas/config.schema.ts:4-11 | extra keys inside `ffmpeg` pass, an extra key beside it does not, a missing `noise` does not |
| `Schema.DecodeMark` | src/schemas/audipomark.schema.ts:8-17 | only a document of mark shape decodes |
| `Schema.DecodeStorage` | src/schemas/audipomark.schema.ts:27-32 | only a document of storage shape decodes |
| `Schema.DecodeConfig` | src/schemas/config.schema.ts:4-11 | only a document of config shape decodes |
| `Schema.DecodeEncodeMark` | src/schemas/audipomark.schema.ts:8-17 | every mark the tool writes passes the schema and reads back unchanged |
| `Schema.DecodeEncodeMarks` | src/schemas/audipomark.schema.ts:23 | a written mark list reads back unchanged |
| `Schema.DecodeEncodeFile` | src/schemas/audipomark.schema.ts:19-25 | every file entry the tool writes passes the schema and reads back unchanged |
| `Schema.DecodeEncodeFiles` | src/schemas/audipomark.schema.ts:30 | a written file list reads back unchanged |
| `Schema.DecodeEncodeStorage` | src/schemas/audipomark.schema.ts:27-32 | every storage the tool writes passes the schema and reads back unchanged |
| `Schema.DecodeEncodeConfig` | src/schemas/config.schema.ts:4-11 | every configuration `mark` writes passes the schema and reads back unchanged |
| `Prompt.IsYesIff` | src/services/readline.service.ts:3 | an answer is "yes" exactly when it is y or yes, letters in either case, nothing around |
| `Prompt.IsYesExamples` | src/services/readline.service.ts:3 | y, Y, yes, YES and Yes match; "", "yes ", yeah, ny and n do not |
| `Prompt.YesAllNo` | src/commands/split.ts:150-159 | a `[Y/a/n]` answer refuses exactly when it is neither yes, nor all, nor empty, and turns the flag on exactly when it is all |
| `Prompt.AskYesAllNo` | src/commands/split.ts:149 | with no answer left the question counts as refused |
| `FileType.Extname` | src/services/filetype.service.ts:6 | a non-empty extension begins with a dot |
| `FileType.ExtnameOfName` | src/services/filetype.service.ts:6 | the extension of a plain name is what follows its last dot |
| `FileType.AudioNameAccepted` | src/services/filetype.service.ts:3-6 | a name ending in .mp3, .ogg, .aac or .wav is an audio file |
| `FileType.AnyCaseAccepted` | src/services/filetype.service.ts:3 | the extension's letters may be in any case, as in SONG.MP3 |
| `FileType.BackupRejected` | src/services/filetype.service.ts:6 | only the final extension counts: `x.mp3.bak` is rejected |
| `FileType.NoExtensionRejected` | src/services/filetype.service.ts:6 | a name without a dot, or a bare dotfile, has no extension and is rejected |
| `FileType.DotfileRejected` | src/services/filetype.service.ts:6 | `.mp3` is not an audio file |
| `Split.AbsolutePhoneUserDir` | src/commands/split.ts:38-42 | the foreign root is absolute; an absolute argument is used as is; otherwise an absolute `externalStorageDirectory` gets it joined on; otherwise it is resolved against the process's working directory |
| `Split.WorkingDir` | src/commands/split.ts:45 | the working directory is absolute |
| `Split.Place` | src/commands/split.ts:74-84 | an entry keeps all fields but `filepath`; its directory is absolute, and the directory joined with the new `filepath` is the entry's resolved target |
| `Split.IndexOfDir` | src/commands/split.ts:85-86 | finds the group of a directory, or reports that none has it yet |
| `Split.PushEntry` | src/commands/split.ts:85-90 | the map update: append to the directory's group, or open a group for it at the end |
| `Split.BuildDirFilesMap` | src/commands/split.ts:65-93 | the loop builds the grouping of the placed entries |
| `Split.GroupedIsReference` | src/commands/split.ts:71-91 | groups follow first-appearance order of their directories, and each group holds that directory's entries in input order |
| `Split.GroupedDirsDistinct` | src/commands/split.ts:85-90 | no directory has two groups |
| `Split.DirOrderFacts` | src/commands/split.ts:85-90 | the directory order has no repeats and lists exactly the directories of the entries |
| `Split.GroupedCount` | src/commands/split.ts:71-91 | every entry lands in exactly one group: the group sizes add up to the number of entries |
| `Split.CheckEntry` | src/commands/split.ts:142-199 | one entry's check: the file test, the size test, the questions and flags, the kept entry and the counter |
| `Split.ValidateFiles` | src/commands/split.ts:137-200 | the loop over a group's entries computes the specified fold |
| `Split.ValidateDirFilesMap` | src/commands/split.ts:95-205 | the loop over the groups computes the specified validation, abort included |
| `Split.CheckFileKeeps` | src/commands/split.ts:142-199 | an entry that does not abort is kept with the real size and its (optionally thinned) marks numbered from the counter when the file exists, skipped otherwise |
| `Split.CheckFilesSound` | src/commands/split.ts:137-200 | a group's check that does not abort keeps exactly the existing files, renumbered from 1 with one counter |
| `Split.KeptSnoc` | src/commands/split.ts:143-198 | the reference list of kept entries grows by the existing file with real size and optionally thinned marks |
| `Split.CheckGroupKeeps` | src/commands/split.ts:109-203 | a group outside the tree or missing is dropped; otherwise its checked entries are emitted under its directory |
| `Split.CheckGroupsSound` | src/commands/split.ts:109-203 | a validation that does not abort emits exactly the surviving groups, in order |
| `Split.ValidatedSound` | src/commands/split.ts:95-205 | the validation either yields the answer-free survivors or aborts with Abort |
| `Split.AnswersOnlyDecideAbort` | src/commands/split.ts:106-199 | two answer sequences that both finish give the same result |
| `Split.SurvivorsIgnoreAnswers` | src/commands/split.ts:109-203 | the surviving groups depend only on the filesystem and the normalize flag |
| `Split.KeptIgnoresAnswers` | src/commands/split.ts:142-199 | the kept entries depend only on the filesystem and the normalize flag |
| `Split.SurvivorIdsContiguous` | src/commands/split.ts:140-199 | within each surviving group the ids run 1, 2, 3, … across its kept entries |
| `Split.SurvivorsShape` | src/commands/split.ts:109-203 | each surviving group comes from an input group that passed the directory checks and holds its kept entries renumbered from 1 |
| `Split.CheckFilesFlagsGrow` | src/commands/split.ts:106-185 | a set "yes to all" flag stays set; answers are consumed, never given back |
| `Split.CheckGroupsFlagsGrow` | src/commands/split.ts:106-185 | the two flags stay set across later groups |
| `Split.NoQuestionsAfterAll` | src/commands/split.ts:147-173 | once both flags are set, a group's entries raise no question and never abort |
| `Split.MissingSkippedSilently` | src/commands/split.ts:145-164 | with the missing-file flag set, a missing file is skipped without taking an answer, whatever the size flag |
| `Split.MismatchKeptSilently` | src/commands/split.ts:165-198 | with the size flag set, a size mismatch is kept with the real size without taking an answer, whatever the missing-file flag |
| `Split.OwnSwitchOffAsks` | src/commands/split.ts:145-185 | a missing file or a size mismatch whose own flag is unset takes one answer, whatever the other flag |
| `Split.SwitchOfOwnKind` | src/commands/split.ts:157-184 | an "all" answer sets only the flag of the question it answers |
| `Split.SwitchesOfOwnKind` | src/commands/split.ts:142-200 | over a group, a flag that comes on was set by an entry with that flag's kind of discrepancy |
| `Split.NewStorages` | src/commands/split.ts:207-219 | one write per group |
| `Split.WriteNewStorages` | src/commands/split.ts:207-219 | the loop writes, group after group in order, a portable storage of the group's entries into the group's directory |
| `Split.NewStorageLocation` | src/commands/split.ts:215 | each storage lands in its group's directory under `local.audipomark` |
| `Split.SplitCommand` | src/commands/split.ts:30-63 | the command computes the specified run |
| `Split.SplitRunSound` | src/commands/split.ts:55-62 | a finished run writes one storage per surviving group of the answer-free grouping; an abort writes nothing |
| `LegacySplit.ValidateFiles` | src/split.ts:124-156 | the loop over a group's entries computes the specified fold |
| `LegacySplit.ValidateFile` | src/split.ts:126-155 | one entry computes the specified step: kept unchanged when its file exists with the recorded size, otherwise one question, dropped on yes, abort on no |
| `LegacySplit.ValidateGroup` | src/split.ts:96-159 | one directory computes the specified step: one question when it is outside the working tree or missing, otherwise its entries are checked and it is kept with those that pass |
| `LegacySplit.ValidateDirFilesMap` | src/split.ts:87-161 | the loop over the groups computes the specified validation |
| `LegacySplit.CheckFilesSound` | src/split.ts:124-156 | a group's check that does not abort keeps exactly the entries whose file exists with the recorded size, unchanged |
| `LegacySplit.CheckGroupsSound` | src/split.ts:96-159 | a validation that does not abort emits exactly the surviving groups |
| `LegacySplit.ValidatedSound` | src/split.ts:87-161 | the validation yields the answer-free survivors or aborts with Abort |
| `LegacySplit.MatchingSound` | src/split.ts:126-156 | every kept entry is an input entry whose file exists with its recorded size |
| `LegacySplit.MatchingComplete` | src/split.ts:126-156 | every input entry whose file exists with its recorded size is kept |
| `LegacySplit.KeptIsMatchingWhenSizesAgree` | src/split.ts:141-155 | when no size differs and thinning out is off, both versions keep the same entries, apart from the ids |
| `LegacySplit.SurvivorsRenumbered` | src/split.ts:155 | under those conditions the current version's output is the older one's renumbered from 1 per group |
| `LegacySplit.SplitCommand` | src/split.ts:27-55 | the command computes the specified run |
| `LegacySplit.RunSound` | src/split.ts:27-55 | a finished run writes one storage per surviving group; an abort writes nothing |
| `JoinCommand.RerootedEntries` | src/commands/join.ts:57-60 | each entry's path becomes the storage's relative directory joined with its own path; its size and marks are unchanged |
| `JoinCommand.RerootedMarks` | src/commands/join.ts:57-60 | re-rooting keeps all the storage's marks, in order |
| `JoinCommand.AppendStorage` | src/commands/join.ts:57-65 | the inner loop appends the re-rooted entries renumbered from the counter, and the counter advances by their mark count |
| `JoinCommand.JoinCommand` | src/commands/join.ts:16-71 | the command computes the specified run |
| `JoinCommand.StepsSound` | src/commands/join.ts:28-66 | a walk that does not stop collects the re-rooted entries of the parsed storages, renumbered from 1 with one counter |
| `JoinCommand.StopCause` | src/commands/join.ts:39-54 | a run stops only by Abort or by rethrowing the read error of an aggregated storage |
| `JoinCommand.StepStopCause` | src/commands/join.ts:39-54 | one step keeps an earlier stop, and stops only on a "no" or with the read error of an aggregated storage |
| `JoinCommand.CleanRunDoesNotStop` | src/commands/join.ts:39-54 | when every aggregated storage parses, the run asks nothing and does not stop |
| `JoinCommand.CollectedCount` | src/commands/join.ts:57-65 | the number of collected entries is the sum of the parsed storages' entry counts |
| `JoinCommand.JoinRunSound` | src/commands/join.ts:16-71 | a missing directory fails with JoinError exactly; a finished run writes the global storage of all collected entries with ids 1, 2, 3, … |
| `JoinCommand.AnswersOnlyDecideStop` | src/commands/join.ts:39-54 | two answer sequences that both finish write the same storage |
| `JoinCommand.CollectedIgnoresAnswers` | src/commands/join.ts:39-54 | the collected entries do not depend on the answers |
| `JoinCommand.WalkedStorage` | src/commands/join.ts:31-35 | a walked file is aggregated exactly when it is a `local.audipomark` not directly in the root; its storage directory is its path below the root |
| `JoinCommand.WalkBelowWorkingDir` | src/commands/join.ts:30-83 | the walk yields the absolute paths of the tree's files, all strictly below the working directory |
| `LegacyJoin.LegacyJoinCommand` | src/join.ts:17-67 | the command computes the specified run |
| `LegacyJoin.LegacyMatchesCurrent` | src/join.ts:28-62 | both versions ask the same questions and stop at the same place; the older one collects the re-rooted entries with ids as read |
| `LegacyJoin.LegacyStepMatches` | src/join.ts:28-62 | one walked file has the same effect on both versions, apart from the renumbering |
| `LegacyJoin.LegacyJoinRenumbered` | src/join.ts:56-61 | the versions finish together and fail alike; renumbering the older result from 1 gives the current one |
| `MarkCommand.Lines` | src/commands/mark.ts:90 | the output splits into one line per newline-separated piece |
| `MarkCommand.LinesOfOutput` | src/commands/mark.ts:90 | splitting output on `\n` or `\r\n` gives its lines back |
| `MarkCommand.KeyValueOf` | src/commands/mark.ts:91 | a line `key=value`, with or without further `=` parts, reads as that key and value |
| `MarkCommand.PlacementWithin` | src/commands/mark.ts:101-107 | the mark lies within the silence; 500 ms before its end when longer than 500 ms, otherwise in the middle, rounded up |
| `MarkCommand.ScanOutput` | src/commands/mark.ts:87-120 | the scan over the `lavfi` lines produces the specified marks and counter |
| `MarkCommand.ScanLine` | src/commands/mark.ts:92-118 | one line updates the interval slots, the marks and the counter as the specified step does |
| `MarkCommand.ScanNumbered` | src/commands/mark.ts:109-112 | the scanner numbers its marks consecutively from the counter, and the counter ends one past the last |
| `MarkCommand.MarksAtMostDurations` | src/commands/mark.ts:99-117 | at most one mark per duration line |
| `MarkCommand.ScanReported` | src/commands/mark.ts:87-120 | for complete start, end, duration reports the scan yields one placed mark per silence, numbered from the counter, and leaves both slots at -1 |
| `MarkCommand.ScanSilence` | src/commands/mark.ts:93-117 | a reported silence overwrites both slots and is then closed by its duration line |
| `MarkCommand.IncompleteIntervalIgnored` | src/commands/mark.ts:99-100 | instances of the scan step, unfolded for up to two lines from empty slots: a duration line with a slot unset emits nothing and resets nothing |
| `MarkCommand.RepeatedStartOverwrites` | src/commands/mark.ts:93-98 | a second start replaces the first |
| `MarkCommand.MergedProperties` | src/commands/mark.ts:57-67 | each set override field replaces the configured one, an unset one leaves it; applying the override twice changes nothing |
| `MarkCommand.Analyze` | src/commands/mark.ts:45-53 | the listing loop picks the audio files in order and the last config file |
| `MarkCommand.ProcessFiles` | src/commands/mark.ts:77-131 | the loop over the audio files computes the specified fold |
| `MarkCommand.ProcessDir` | src/commands/mark.ts:40-149 | one directory's processing computes the specified writes or error |
| `MarkCommand.ProcessVisits` | src/commands/mark.ts:31-37 | the loop processes the visited directories in order and stops at the first that fails, with its error |
| `MarkCommand.SubsequenceOfNumbered` | src/commands/mark.ts:109-123 | marks that survive thinning out keep strictly increasing ids within the counter's range |
| `MarkCommand.FileMarksSound` | src/commands/mark.ts:87-123 | one file's marks have increasing ids between the counter before and after it, and are spaced |
| `MarkCommand.FileStepSound` | src/commands/mark.ts:77-131 | one more file keeps the directory's entries recorded in order with increasing ids |
| `MarkCommand.FileStepsSound` | src/commands/mark.ts:73-131 | one counter runs over the directory's files: ids increase from 1 (with gaps), each entry has its relative path, size and spaced marks |
| `MarkCommand.DirRunWrites` | src/commands/mark.ts:133-148 | nothing is written without audio files; otherwise a portable storage of the files' entries, then the configuration in effect |
| `MarkCommand.ListedFile` | src/commands/mark.ts:127-160 | a listed file's recorded path is its bare name, and it is an audio file exactly when its name is |
| `MarkCommand.DirWritesLocation` | src/commands/mark.ts:139-145 | the storage and the config land in the directory under their names |
| `MarkCommand.VisitsShape` | src/commands/mark.ts:31-37 | a recursive run makes as many visits as the tree has directories, plus one; the working directory comes last in any case |
| `MarkCommand.VisitsEveryDir` | src/commands/mark.ts:31-37 | a recursive run visits every directory of the tree, under its absolute path and with its own listing |
| `MarkCommand.MarkCommand` | src/commands/mark.ts:24-38 | the command computes the specified run |
| `MarkCommand.DirsRunAllProcessed` | src/commands/mark.ts:31-37 | a run without error processed every directory |
| `MarkCommand.DirsRunFirstFailure` | src/commands/mark.ts:31-37 | a failed run stopped at the first directory that threw, every earlier one processed |
| `MarkCommand.DirsRunWrites` | src/commands/mark.ts:31-37 | every write of a run comes from a directory that was processed |
| `MarkCommand.MarkRunSound` | src/commands/mark.ts:27-37 | a missing working directory fails with MarkError before anything is written; a non-recursive run processes the working directory alone |

## Left out

- Reading and writing files, `JSON.parse` and `JSON.stringify`. A storage
  comes in as a value, and a write goes out as a `Write` value (path and
  document). `readStorage` and `readConfig` are oracles, as is the outcome of
  each storage read in `join`.
- The filesystem probes `directoryExists`, `fileExists` and
  `statSync(..).size` are oracle functions of the model's `FileSystem`.
  A `statSync` failure after a successful `fileExists` is not modelled.
- The directory tree is a given value (`Walk.Entry`). It is read once, so the
  files `mark` writes while running are not seen by later listings. Symbolic
  links are not modelled.
- Prompting is a sequence of answers consumed front to back. A run that runs
  out of answers is treated as refused, whereas the program would wait at the
  prompt.
- `allRegExp` is imported by src/commands/split.ts but is not part of this
  model's sources. The "all" answer is an abstract predicate `isAll`.
- The ffmpeg run (src/services/ffmpeg.service.ts is not part of this model) is
  an oracle from file and configuration to its output or error.
- The float parsing `Math.round(parseFloat(v) * 1000)` is an oracle `millis`
  from text to integer milliseconds. NaN is not modelled.
- Node's `path` is modelled for POSIX paths only: no Windows drives, and a
  trailing slash is dropped as `path.resolve` drops it.
- The messages that interpolate the function `directoryExists` are modelled
  as the fixed text "Directory not found".
- Logging, the command-line wiring and exit codes are not modelled. This
  includes the call site that passes two arguments to the three-parameter
  `mark`.
- JSON objects are property lists in enumeration order, so duplicate keys and
  key reordering by the parser are not modelled.
- Model numbers (ids, positions, sizes, config values) are integers. The
  schemas are stated on JSON numbers (reals), and only integral documents
  decode to model values.
- The override in `mark` is written into the configuration object in place,
  and that object is the shared default when no config file exists. The model
  applies it as a value. `MarkCommand.MergedProperties` shows the difference
  cannot be observed, because the same override is applied to every directory
  and applying it twice changes nothing.
- Validate.NumberText: renders integral numbers in full decimal digits and
  non-integral numbers as the empty text. `Array.prototype.join` prints a
  non-integral number in decimal (`[1.5]` gives "1.5") and an integer of
  magnitude 1e21 or more in exponent form. zod's formatted errors hold only
  strings in `_errors`, so the difference shows only on a hand-built tree.
- The error classes: src/commands/join.ts:14 and src/commands/split.ts:15
  import `Abort` and `StorageError` from `../errors`, which is not part of
  this model, while src/services/validate.service.ts:2 throws the
  `StorageError` of src/utils.ts:63. The model has one `StorageError`, so
  `join`'s `instanceof StorageError` test catches what `assertNoZodErrors`
  throws. The `log` that the commands import from ../utils is not in the
  utils.ts modelled here; logging is left out anyway.
- MarkCommand.MarkRunSound: for a recursive run it states only the
  missing-directory case. The run as a whole is characterised by
  `DirsRunAllProcessed`, `DirsRunFirstFailure` and `DirsRunWrites` over the
  visits `VisitsShape` describes. A `readConfig` or ffmpeg oracle may itself
  throw a MarkError with the same message, so the missing-directory case is
  stated one way only.
