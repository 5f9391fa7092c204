# A verified model of Brunel's core

Brunel lets a language model edit files and run PowerShell commands inside one workspace directory. This project
models the parts of its Go code that decide what happens to the user's files, sessions and approvals, and proves
what those parts are for. Nothing here runs the Go program.

How the model is built:

- Code that updates variables, fields or buffers is a method or a class here, with the loops of the source. Each
  one is proved against a specification function, and the laws are lemmas about that function.
- Code that several goroutines or processes run at once (the file swap, the approval broker) is a state machine
  whose steps interleave freely. Its laws hold for every reachable state. The approval dialog is a class whose
  message handler is proved against `Modal.Update`, and its laws hold for every sequence of messages.
- What the surroundings do is a parameter that may take any value: which writes fail and after how many bytes,
  what the file system answers, when a run is cancelled, what a human says.
- A claim that is not true of the code is stated with the exact condition under which it holds.

| file | contents |
|---|---|
| `Basics` | bytes, optional values, results, small facts about sequences |
| `Lines` | byte-exact splitting into lines and joining |
| `Patch`, `Apply`, `PatchLaws`, `PatchSteps`, `PatchFile`, `Reread`, `Undo`, `UndoLaws`, `PatchExamples` | the patch engine: validation, one-pass application, where every line ends up, equivalence with single steps, independence of the caller's order, reading back, undo, inputs on which undo and reading back fail |
| `Replace`, `FileTools` | the hash-guarded swap as interleaved steps, and the tools built on it |
| `SessionLog`, `Sessions`, `SessionLedger`, `SessionFailures`, `SampleCodec`, `Recovery`, `RecoveryLaws` | the append-only event log with torn tails, the session handle, the session as a ledger of what was asked for, appending on after failures, a codec that keeps the assumed promises, the summary and what the next run is told |
| `RunModel`, `RunSpec`, `RunLoop`, `RunLaws`, `RunTrace`, `RunFacts`, `RunReports`, `RunRecord`, `RunSessions` | one run: the effect of an event, the run read as one pass, the buffering loops, the laws, its log, display, facts and report read off the fields of the events, what the run leaves in the log; and many runs of one session |
| `Broker`, `BrokerReplies`, `BrokerProgress`, `Modal`, `ModalLaws`, `ModalReading` | the approval broker and client, what clients are told, that nobody waits forever; the approval dialog, what was on screen, how it is read and answered |
| `Ulid`, `Credential`, `Statements`, `Paths`, `DrivePaths`, `Workspaces`, `Framing`, `SearchText` | codecs, command splitting, paths, and stream framing |

## Findings

Where the obvious claim is not true of the code, the exact condition is proved and a failing input is a lemma.

- An empty hunk below an unterminated last line, with a hunk above it that replaces that line, makes the file end
  in a line feed it did not have (`PatchSteps.HiddenEndExample`). This is the only shape in which applying all
  hunks at once differs from applying them one by one from the bottom (`PatchSteps.BottomUpIffNotHidden`).
- Undo does not always restore the file. The inverse of an accepted patch is refused exactly when two neighbouring
  hunks touch and the upper one adds no line (`PatchExamples.RefusedInverseExample`). Otherwise, and if the patched
  file reads back, undo fails exactly when an open end was closed or deleted (`PatchExamples.ClosedEndExample`), or a
  replaced line had another terminator than the first one of the patched file, as in a mixed file
  (`PatchExamples.MixedTermsExample`) or an emptied CR LF file (`PatchExamples.EmptiedCrLfExample`). The whole
  condition is `UndoLaws.UndoIff`.
- Reading a patched file back gives the patched lines with four kinds of exceptions (`Reread.RereadIff`). A new text
  may hold a line feed (`PatchExamples.NewLfExample`) or end in CR before a bare line feed
  (`PatchExamples.NewCrExample`): the engine checks neither. At an unterminated end, the new last line may be empty
  (`Reread.EmptyEndIsLost`), or the old one ends in CR and gets a bare line feed (`PatchExamples.ClosedCrExample`).
- Appending on after a failed append corrupts the log exactly when the failed one left bytes and a later one writes
  its whole line before the log is read again (`SessionFailures.AppendsReadableIff`, `SampleCodec.TornLogExample`;
  over any operations, `SessionFailures.AnyRunReadableIff`). A summary saved after an
  append that reached the disk completely but was reported as failed stands one event behind
  (`Sessions.CursorGapIsExact`, `SampleCodec.MissedEventExample`).
- The list of edited files keeps a file at the place of its first edit, so that it can be dropped although it was just
  edited again (`RecoveryLaws.ReeditedFileIsDropped`); what is kept is `RecoveryLaws.EarlierWorkIsKept`.
- A prompt can be put up after the broker was closed: Close can fall between the check for cancellation and the call
  of the approver (`Broker.LatePromptExample`). It is at most one, from the goroutine that held the ask mutex and
  had passed the check, and none once Close has returned nil (`Broker.PromptAfterCloseWasChecked`,
  `Broker.NoPromptAfterReturn`).
- A taller terminal can credit lines of an approval that were never on screen, so that it can be approved with lines
  unread (`ModalLaws.UnshownLinesExample`). A run is honest throughout exactly when every new height credits only
  lines that have been on screen or are then (`ModalLaws.HonestIffCreditsShown`); a guard on the view alone is enough
  for that, though not necessary (`ModalLaws.HarmlessRunIsHonest`, `ModalLaws.HarmlessNotNeededExample`).
- The comment on `normalizeWindowsPath` says that a path above its drive is left as it is and never within a
  workspace. It is not left as it is: it loses its drive (`DrivePaths.RootedFormIff`). For drive letters and file
  names without a colon it is indeed never judged within (`DrivePaths.DrivePathWithinIff`); below a share it can be
  (`DrivePaths.ShareClimbExample`). The judgement is right for every root exactly when the path does not climb
  (`DrivePaths.AlwaysRightIff`).
- A credential stored as UTF-16LE whose bytes are NUL-free UTF-8 is accepted as another text
  (`Credential.Utf16MisreadExample`); a text without NUL and U+FFFD fails to come back exactly then
  (`Credential.Utf16ComesBackIff`).
- A credential stored as UTF-8 may hold U+FFFD; only the UTF-16 path excludes it (`Credential.ReplacementAccepted`).
- Output of exactly the limit counts as truncated although nothing is lost (`Framing.TruncatedAtTheLimit`).

## Model

The rows down to `Framing.TruncatedAtTheLimit` are the laws, and the methods whose contract states a law. The rows
after it are refinement steps: each says that the source's own loop or field updates compute the specification
function about which the laws speak.

| member | source | states |
|---|---|---|
| `Lines.SplitLines` | internal/filetools/lines.go:16-39 | The scan yields the split of the bytes; joining it gives the bytes back, and it is canonical. |
| `Lines.JoinLines` | internal/filetools/lines.go:41-48 | The buffer holds the joined lines, and splits into the same list if the list is canonical. |
| `Lines.FileTerminator` | internal/filetools/lines.go:53-60 | The terminator of the first terminated line; a bare line feed only when no line has one. |
| `Lines.SplitThenJoin` | internal/filetools/lines.go:14-48 | For all bytes, joining the split restores them, and every split is canonical. |
| `Lines.RoundTripIffCanonical` | internal/filetools/lines.go:14-48 | A list of lines survives join and split exactly when no text holds a line feed, no text before a bare line feed ends in CR, and only a non-empty last line is unterminated. |
| `Patch.ValidateHunks` | internal/filetools/patch.go:71-99 | The one pass over the hunks accepts exactly the lists whose hunks are in range, complete, ordered and apart. |
| `Patch.ValidIffAcceptable` | internal/filetools/patch.go:49-58 | However equal start lines were sorted, validation accepts exactly the collections whose hunks are pairwise apart, said without any order. |
| `Patch.ValidOrderIsUnique` | internal/filetools/patch.go:49-99 | A collection of hunks has at most one order that passes validation. |
| `Apply.ApplyHunk` | internal/filetools/patch.go:107-141 | One round of the loop: after hunk k the result is the patched file up to the cursor, or the first line that does not match is reported. |
| `Apply.ApplyHunks` | internal/filetools/patch.go:104-146 | Succeeds exactly when every old line matches; the result is the spliced file with its end closed or kept open; a conflict names the first mismatch. No index leaves its range. |
| `PatchLaws.UntouchedLineSurvives` | internal/filetools/patch.go:104-146 | A line outside all hunks is in the result, moved by the length change above it, with its own terminator, except an unterminated last line below which lines were added. |
| `PatchLaws.NewLineLands` | internal/filetools/patch.go:128-138 | Every new line of every hunk is in the result at its place, with the file's terminator, except the last one that replaces an open end. |
| `PatchLaws.Locate` | internal/filetools/patch.go:71-99 | Every line of the file lies in a gap between hunks or in a hunk, so the two laws above describe the whole result. |
| `PatchLaws.OnlyOnePlace` | internal/filetools/patch.go:71-99 | No line is both in a gap and in a hunk. |
| `PatchLaws.ResultKeepsFileShape` | internal/filetools/patch.go:113-138 | Only the last line of the result can be unterminated. |
| `PatchLaws.EndStaysOpenIff` | internal/filetools/patch.go:113-138 | The patched file lacks a final terminator exactly when the file did and the hunks either leave its end alone or the last one replaces the last line by at least one other; so a closed file stays closed. |
| `PatchSteps.BottomUpIffNotHidden` | internal/filetools/patch.go:104-146 | Applying the hunks one at a time from the bottom gives the same texts and terminators as one pass, exactly unless an empty hunk hides a replaced open end. |
| `PatchSteps.NonEmptyHunksCommute` | internal/filetools/patch.go:104-146 | Without a hunk whose old and new lists are both empty, the two always agree, and so do their context checks. |
| `PatchSteps.StepsMatchIffContextOk` | internal/filetools/patch.go:121-127 | Every single step finds its context exactly when the one pass does. |
| `PatchSteps.HiddenEndExample` | internal/filetools/patch.go:136-138 | A concrete accepted patch in which an empty hunk changes whether the file ends in a newline. |
| `PatchFile.PatchBytes` | internal/filetools/patch.go:29-65 | Bytes and hunks in any order to the new bytes: accepted exactly when the hunks are acceptable and all match, and the outcome is the specified one. |
| `PatchFile.SucceedsIffFitting` | internal/filetools/patch.go:29-127 | A patch succeeds exactly when every hunk's range lies in the file and holds its old lines, and of any two hunks one starts and ends above the other. |
| `PatchFile.OutcomeIgnoresOrder` | internal/filetools/patch.go:49-58 | Acceptance, result and conflict do not depend on the order in which the caller lists the hunks. |
| `PatchFile.OutcomeIsUnique` | internal/filetools/patch.go:29-65 | The bytes and the hunks determine the outcome, also when the sort is unstable. |
| `Undo.InverseValidIffSeparable` | internal/filetools/patch.go:71-99 | The inverse hunks pass validation exactly when every hunk leaves a line to the next one or adds a line. |
| `Undo.SpliceBack` | internal/filetools/patch.go:104-146 | Splicing back the inverse hunks restores every line of any file; the lines put back get the terminator of the way back. |
| `UndoLaws.UndoIff` | internal/filetools/patch.go:29-65 | For every file and every accepted patch, patching and then applying the inverse restores the bytes exactly when the hunks are separable, the new texts are still lines as written, the end is not lost, an open end stays open, and each replaced terminated line has the terminator that the patched file begins with. |
| `UndoLaws.UndoRestores` | internal/filetools/patch.go:29-65 | The same for a file with one terminator, a terminated end and new texts without line feed or final CR: restored exactly when the hunks are separable and no CR LF file was emptied. |
| `UndoLaws.PatchedBack` | internal/filetools/patch.go:29-65 | The way back fits the patched lines and gives the original lines, replaced ones with the terminator of the way back. |
| `UndoLaws.ReadLineByLine` | internal/filetools/lines.go:14-48 | If no text holds a line feed, every line is read back on its own: a text that ends in CR before a bare line feed loses the CR, and an empty unterminated end is not read. |
| `Reread.RereadIff` | internal/filetools/patch.go:104-146 | For every accepted patch, the bytes of the patched file split into the patched lines exactly when every new text is a line as written (no line feed in it, no final CR before a bare line feed), the new open end is not empty, and the old open end is not closed after a CR. |
| `Reread.EmptyEndIsLost` | internal/filetools/patch.go:136-138 | Replacing an unterminated last line by an empty one leaves bytes that read as the patched lines without the last, exactly when the new texts are lines as written. |
| `PatchExamples.RefusedInverseExample` | internal/filetools/patch.go:71-99 | An accepted patch of two touching hunks whose inverse is refused. |
| `PatchExamples.EmptiedCrLfExample` | internal/filetools/lines.go:53-60 | Deleting the only line of a CR LF file and putting it back changes its terminator. |
| `PatchExamples.ClosedCrExample` | internal/filetools/patch.go:113-120 | A line added below an unterminated line that ends in CR makes that CR part of the terminator. |
| `PatchExamples.NewCrExample` | internal/filetools/patch.go:128-138 | A new text that ends in CR before a bare line feed is read back without it. |
| `PatchExamples.NewLfExample` | internal/filetools/patch.go:128-138 | A new text that holds a line feed is read back as two lines. |
| `PatchExamples.ClosedEndExample` | internal/filetools/patch.go:113-120 | A line added below an open end and taken away again leaves the end closed. |
| `PatchExamples.MixedTermsExample` | internal/filetools/lines.go:53-60 | In a file of mixed terminators, a line replaced and put back has the first terminator of the file. |
| `Replace.StepKeepsInv` | internal/filetools/file.go:188-240 | Every step, ours or an outside writer's, keeps the invariant of lock, temporary file and target. |
| `Replace.NeverPartial` | internal/filetools/file.go:188-240 | At every step the path leads to what the outside writers left or to the complete new content. |
| `Replace.SuccessReplacedExpected` | internal/filetools/file.go:218-239 | On success the content taken away had the expected hash at the swap, and neither lock nor temporary file remains. |
| `Replace.FailureLeavesTarget` | internal/filetools/file.go:188-240 | After a failure the file is as the last outside writer left it, without lock and temporary file. |
| `Replace.StaleIsReal` | internal/filetools/file.go:207-239 | A stale hash is reported only when the content under our lock has another hash than expected. |
| `Replace.SmoothRunReplacesIff` | internal/filetools/file.go:188-240 | A call that finishes with no outside step and no failing one replaces the file exactly when no hash was given or the file has it; otherwise it reports a stale hash. |
| `Replace.CallCanFinish` | internal/filetools/file.go:188-240 | On any content a call can finish, with the new content or, if the hash differs, the old. |
| `Replace.NoWriteUnderOurLock` | internal/filetools/file.go:207-239 | While we hold the lock no writer that honours it can write or lock. |
| `Replace.LockTarget` | internal/filetools/file.go:246-258 | The wait ends after at most eleven attempts, with the last answer, and gives up on contention only after the window. |
| `FileTools.ProtocolEndsSwapped` | internal/filetools/file.go:188-240 | Every finished interleaving means for the caller what the tools below assume of it. |
| `FileTools.TextFile.ReadFile` | internal/filetools/file.go:40-63 | Exactly the lines whose numbers were asked for, and the hash of the whole file; which requests are refused. |
| `FileTools.WindowIsTheRange` | internal/filetools/file.go:40-80 | A line is read exactly when its number lies in the requested range, in which zero stands for the first or the last line; with its own text, in order. |
| `FileTools.WindowsMeet` | internal/filetools/file.go:40-80 | Reading two adjoining ranges is reading one. |
| `FileTools.FoundLineCanBeRead` | internal/tools/search_text.go:86-99 | A line search_text reports has the number and text read_file shows, up to a CR that ends an unterminated last line. |
| `FileTools.TextFile.AtomicReplace` | internal/filetools/file.go:188-240 | As the caller sees it: replaced exactly when the content found under the lock has the expected hash. |
| `FileTools.TextFile.WriteFile` | internal/filetools/file.go:134-154 | When it succeeds, what the file holds then, the returned hash, and that a refusal leaves the file to the outside writers. |
| `FileTools.SpaceIffCodePoint` | internal/filetools/file.go:134-137 | Which characters do not make a hash. |
| `FileTools.TextFile.ApplyPatch` | internal/filetools/patch.go:29-65 | Succeeds exactly for a matching hash twice and an acceptable matching patch; the file then holds the patched bytes of the very content that was checked; all or nothing. |
| `SessionLog.ReadEventsLoop` | internal/session/store.go:453-480 | The loop over the bytes reads exactly the numbered complete events and tells whether a partial line follows, or reports corruption. |
| `SessionLog.ReadBack` | internal/session/store.go:453-480 | Complete events numbered 1..n followed by any partial line read back as exactly these events and a fragment flag. |
| `SessionLog.ReadStopsAt` | internal/session/store.go:463-476 | One complete line that is no event or has the wrong number makes the log unreadable. |
| `Sessions.RunKeepsSound` | internal/session/store.go:294-398 | Every run of appends, reads, saves, closes and resumes keeps log, numbers, fragment flag and cursor consistent. |
| `Sessions.LogSurvivesAnyRun` | internal/session/store.go:316-480 | Over any run that writes no line while the bytes of a failed append are unread, with writes cut at any byte, the log only grows and reads back as exactly the completed events 1..n; a fragment is reported exactly when a partial line remains. |
| `Sessions.FragmentRefusesAppends` | internal/session/store.go:316-330 | With a partial line at the end, every append is refused and changes nothing. |
| `Sessions.CursorGapIsExact` | internal/session/store.go:294-304 | The saved cursor never passes the complete events and stands at their number when the summary was saved, less one event the handle took for failed. |
| `SessionLedger.LogReadsAsTheLedger` | internal/session/store.go:316-480 | Over any such run, the log reads back as exactly the appends whose whole line reached the disk, with kind, payload, tokens, source and time as they were given, numbered from 1. |
| `SessionLedger.SummaryIsTheLastSaved` | internal/session/store.go:294-304 | Over any such run, the stored summary is, but for its cursor, the one of the last save that succeeded on an open session; empty when there was none. |
| `SessionLedger.AnswerTellsTheLedger` | internal/session/store.go:316-360 | After any such run, which appends succeed, why the others are refused, and that success means the event is in the log under the next number. |
| `SessionFailures.AppendAfterFailedWrite` | internal/session/store.go:343-354 | After an append that failed and left bytes, any further appends keep the log readable exactly as long as none writes its whole line. |
| `SessionFailures.AppendsReadableIff` | internal/session/store.go:316-360 | Any sequence of appends without a read leaves a readable log, unless one wrote its whole line after an earlier one had failed and left bytes: exactly then it does not. |
| `SessionFailures.AppendsAfterAnyRun` | internal/session/store.go:316-372 | The same after any run of the session that left a whole log. |
| `SessionFailures.AnyRunReadableIff` | internal/session/store.go:294-398 | Over appends, reads, saves, closes and resumes in any order, the log is readable exactly when no line was written whole while the bytes of a failed append had not been read. |
| `SessionFailures.CursorAtMostOneBehind` | internal/session/store.go:294-398 | Over any such run the saved cursor is the number of events at the last save, or one less. |
| `SampleCodec.SampleKeepsItsPromises` | internal/session/store.go:331-341 | There is a codec with every property that the session laws assume of the encoder. |
| `SampleCodec.TornLogExample` | internal/session/store.go:343-354 | One byte of a failed append and a complete append after it make the log unreadable. |
| `SampleCodec.MissedEventExample` | internal/session/store.go:294-304 | A failed sync and a saved summary leave the cursor one event behind. |
| `Recovery.CapTailOnce` | internal/agent/recovery.go:184-189 | Capping after each added item keeps what capping once at the end keeps. |
| `Recovery.RecoveryContext` | internal/agent/recovery.go:106-157 | The section holds the saved state and exactly the gaps; there is none exactly when nothing was saved and nothing happened. |
| `Recovery.GapIsTold` | internal/agent/recovery.go:106-157 | After any run of storage operations the gap that is told is exactly the number of complete events the summary does not cover, and a fragment is always told. |
| `RecoveryLaws.SectionsTellTheSummary` | internal/agent/recovery.go:106-157 | Every section of the prompt carries its own field of the summary, is there exactly when that field is not empty, and comes in a fixed order. |
| `RecoveryLaws.GapsTellTheLog` | internal/agent/recovery.go:106-157 | Each gap is stated exactly when it is one, for every way in which summary and log can be read. |
| `RecoveryLaws.SummaryTellsTheLastRun` | internal/agent/recovery.go:36-99 | Goal, open errors and pending items are those of the last run and no others. |
| `RecoveryLaws.EarlierWorkIsKept` | internal/agent/recovery.go:36-99 | Of decisions and commands the newest twenty are kept, of files the two hundred added last, and the last diff that was not empty. |
| `RecoveryLaws.DeclinedNotesTell` | internal/agent/recovery.go:55-59 | Every refused command makes one decision, in order, shortened to 400 characters. |
| `RecoveryLaws.ToolsHaveTheirNames` | internal/agent/recovery.go:73-80 | Failures name the tools as the model calls them. |
| `RecoveryLaws.ReeditedFileIsDropped` | internal/agent/recovery.go:36-99 | With two hundred files listed, the first of them is dropped although it was just edited again, when another file comes in. |
| `RunSessions.UnsavedAreNotCovered` | internal/agent/recovery.go:106-157 | After any sequence of runs, the events logged since the last save are those of the runs after the last one whose summary was saved. |
| `RunSessions.GapIsUnsavedRuns` | internal/agent/recovery.go:106-157 | The gap told to the next run is the number of those events, and one more if that summary was saved after an event the handle took for failed. |
| `RunSessions.NextPromptShowsLastSaved` | internal/agent/recovery.go:36-157 | After any sequence of runs, the next prompt shows, section by section, the summary of the last run that could save one. |
| `RunSessions.SummaryTellsAllSavedRuns` | internal/agent/recovery.go:36-99 | Over any sequence of runs that each start from the stored summary, it holds the newest twenty commands and decisions of all saved runs, and all files they edited in order of the first edit, up to two hundred. |
| `RunLoop.WaitPromptAck` | internal/agent/runtime.go:502-531 | The events before the first response, which decides; or why there is no acknowledgement. |
| `RunLoop.Run` | internal/agent/runtime.go:123-223 | Buffering, replay and the live loop together compute the one-pass reading of the arrivals. |
| `RunLaws.AckIsFirstResponse` | internal/agent/runtime.go:502-531 | The acknowledgement is the first response, a success, with only other events before it. |
| `RunReports.FirstDecides` | internal/agent/runtime.go:502-531 | The first arrival that is a response, or no event, decides about the prompt, and what each of them means. |
| `RunReports.AckedIff` | internal/agent/runtime.go:502-531 | A prompt is acknowledged exactly by a successful response with only other events before it. |
| `RunLaws.DriveTakes` | internal/agent/runtime.go:168-223 | The run processes exactly the arrivals up to the first settle, unapprovable call, cancel, timeout or end of stream. |
| `RunReports.FirstEnds` | internal/agent/runtime.go:168-223 | The first settle, unapprovable call, cancel, timeout or end of stream ends the run, how it does, and that exactly the events up to it are taken in. |
| `RunLaws.RunIsImageOfEvents` | internal/agent/runtime.go:168-241 | Display, session log, facts, last stop reason, usage and failed appends are the image of exactly the events taken in: the arrivals without the acknowledgement. What the image is, the next rows say. |
| `RunTrace.LogTellsTheEvents` | internal/agent/runtime.go:428-442 | The session log holds, in order, exactly the deltas of the assistant's text, the calls it finished writing and the tools that ended, with their names and ids. |
| `RunTrace.DisplayTellsTheEvents` | internal/agent/runtime.go:449-467 | The display shows, in order, exactly the non-empty deltas, the tools that started and ended, and the end of the run. |
| `RunTrace.UsageTellsTheEvents` | internal/agent/runtime.go:267-281 | The usages that arrive are shown exactly when they differ from the one before; the last one is kept. |
| `RunFacts.FactsTellTheEvents` | internal/agent/facts.go:60-131 | Failures, verifications, refused commands and the first unapprovable one are exactly those of the events, with the arguments of each call's last start; and how many calls were started. |
| `RunFacts.TurnsAndErrorTellTheEvents` | internal/agent/runtime.go:247-266 | Every turn is counted, and the last error message that was not empty is kept. |
| `RunLaws.NothingAfterTheEnd` | internal/agent/runtime.go:230-241 | No event after a settle or an unapprovable call has any effect. |
| `RunLaws.OpenCallsAreNeverEnded` | internal/agent/facts.go:60-131 | A call is reported open exactly when it was seen starting and has not ended since. |
| `RunLaws.DeclinedIffNotApproved` | internal/agent/facts.go:80-101 | Approval counts as declined exactly when some call failed for want of approval. |
| `RunFacts.OpenCallKeepsItsArgs` | internal/agent/facts.go:60-78 | The arguments used when a call ends are those of its last start. |
| `RunFacts.OpenCallIsLastStart` | internal/agent/facts.go:60-78 | An open call is kept with the tool and the arguments of its last start, and only if it has not ended since. |
| `RunFacts.ModifiedIffEdited` | internal/agent/facts.go:103-140 | The report lists exactly the paths with which an editing call was started that ended without error, each once. |
| `RunLaws.EveryExitIsConsistent` | internal/agent/runtime.go:123-400 | On every path: a saved summary has nothing pending exactly when the final status is completed; failed means an error; an error means not completed. |
| `RunLaws.CompletedIffClean` | internal/agent/runtime.go:306-350 | Completed exactly when the run settled with stop reason stop, no append failed, no started call is open, and nothing is pending or was declined. |
| `RunReports.FailedIff` | internal/agent/runtime.go:306-400 | Failed exactly when the run was not launched, lost an entry of its log, timed out, lost its events before it settled, or settled with an error or no stop reason; so every other run is completed or incomplete. |
| `RunReports.LaunchError` | internal/agent/runtime.go:123-167 | The error of a run that was not launched names what failed first. |
| `RunReports.ErrorTellsTheEnd` | internal/agent/runtime.go:230-400 | The error of a launched run for every way it can end, with the provider's own message where there is one. |
| `RunReports.ReportTellsTheRun` | internal/agent/facts.go:172-227 | Task, turns, usage, files, verifications, failures, pending approval and diff of the report are those of the events. |
| `RunReports.RisksTellTheRun` | internal/agent/facts.go:172-227 | Each risk is reported exactly when it is one. |
| `RunReports.SavedTellsTheRun` | internal/agent/runtime.go:469-495 | The summary a run saves is that of its own report and facts, on top of the one it started with. |
| `RunLaws.SavedPendingMatchesStatus` | internal/agent/recovery.go:75-98 | The pending list anticipates the later status lowering: it is empty exactly for a run finally completed. |
| `RunRecord.CompletedRunIsRecorded` | internal/agent/runtime.go:406-420 | A run reported completed leaves a log that reads back as the old events followed by exactly one event per entry of the run, in order. |
| `RunRecord.CompletedRunTellsTheEvents` | internal/agent/runtime.go:406-442 | What a completed run adds to the log read back is one tool_result per tool that ended, one tool_call per call written and one assistant_text per delta, each kind in order, and nothing else. |
| `RunRecord.UnrecordedRunFails` | internal/agent/runtime.go:337-350 | A launched run one of whose entries could not be appended is reported failed, with an error. |
| `Broker.StepKeepsAll` | internal/approval/broker_windows.go:96-215 | Every step keeps handle ownership, the approval chain and the order of closing down. |
| `Broker.OneConfirmAtATime` | internal/approval/broker_windows.go:208-215 | A human is asked at most one thing at a time. |
| `Broker.ApprovedMeansConfirmed` | internal/approval/client.go:48-97 | A client is told yes only if its token matched and the approver said yes, without error, to that very command and reason. |
| `BrokerReplies.AnsweredAsConfirmed` | internal/approval/broker_windows.go:172-215 | A client is answered yes, or no, exactly when the approver said so without error to its own command and reason; every other answer is a refusal. |
| `BrokerReplies.ClientHearsTheAnswer` | internal/approval/client.go:48-97 | A client takes the answer for a yes exactly when it got one and the approver said yes to its request. |
| `BrokerProgress.WaitingCanBeGranted` | internal/approval/broker_windows.go:172-215 | From every reachable state that is not cancelled, a waiting request can be put to the approver and a yes reaches its client. |
| `BrokerProgress.NextClientCanBeGranted` | internal/approval/broker_windows.go:135-215 | However many clients came before, a listening broker can hear the next one and grant it, and listens on. |
| `BrokerProgress.LastClientIsServed` | internal/approval/broker_windows.go:135-170 | When no further pipe instance can be made, the connected client is still served. |
| `BrokerProgress.GrantedExample` | internal/approval/broker_windows.go:135-215 | A run of one client from its connection to the yes. |
| `Broker.HandlesClosedOnce` | internal/approval/broker_windows.go:96-204 | No pipe instance is closed twice, and Close never disconnects a closed one. |
| `Broker.CloseLeavesNothing` | internal/approval/broker_windows.go:96-133 | When the first Close returns nil, every instance is closed exactly once and every goroutine has ended. |
| `BrokerProgress.CloseCanReturn` | internal/approval/broker_windows.go:96-133 | No deadlock: from every reachable state in which Close waits, there is a way for it to return nil. |
| `Broker.PromptAfterCloseWasChecked` | internal/approval/broker_windows.go:96-215 | After Close or another cancellation, a prompt is put up only by the goroutine that held the ask mutex and had passed the check before it; at most one more confirmation happens. |
| `Broker.BothCancel` | internal/approval/broker_windows.go:96-133 | The end of the context and Close both cancel at once, from every reachable state. |
| `Broker.CheckedCanPrompt` | internal/approval/broker_windows.go:208-215 | A prompt can be put up next exactly by a goroutine that has passed the check, closed or not. |
| `Broker.NoPromptAfterReturn` | internal/approval/broker_windows.go:96-133 | Once Close has returned nil, in no later state is a prompt up. |
| `Broker.LatePromptExample` | internal/approval/broker_windows.go:208-215 | A run in which the approver is asked after the broker was closed. |
| `ModalLaws.FullySeenMeansShown` | internal/tui/tui.go:528-564 | If every new height credits only shown lines, a head that counts as fully seen has had every line on screen since it became the head at this width. |
| `ModalLaws.HonestIffCreditsShown` | internal/tui/tui.go:230-269 | Over any messages, only lines that were on screen count as read at every moment exactly when every change of height credits only shown lines. |
| `ModalLaws.HarmlessRunIsHonest` | internal/tui/tui.go:528-564 | Growth that passes the guard on the view is enough for that. |
| `ModalLaws.AnsweredOnce` | internal/tui/tui.go:412-434 | Over any messages, no reply channel is answered twice, nor answered while it still waits. |
| `ModalReading.AnsweredInTurn` | internal/tui/tui.go:230-434 | Over any messages, requests are answered in the order in which they came, each on its own channel; the others, except those withdrawn, wait unchanged. |
| `ModalReading.HeadCanBeApproved` | internal/tui/tui.go:271-311 | Whatever was done before and however long the text, paging down from the start reads all of it, and the approve key then says yes to the head. |
| `ModalReading.FittingIsReadAtOnce` | internal/tui/tui.go:528-535 | A text that fits on the screen can be approved at once. |
| `ModalReading.ReadingIsNeverLost` | internal/tui/tui.go:230-311 | While the same text is at the head, no message forgets what was read, and only scrolling moves the window. |
| `ModalReading.RewrapStartsOver` | internal/tui/tui.go:230-243 | A new width starts the reading over; a new height alone does not. |
| `ModalReading.PagingReadsOn` | internal/tui/tui.go:537-564 | Repeated paging down leaves nothing unread above the window and comes to the end. |
| `ModalReading.KeysMoveTheWindow` | internal/tui/tui.go:537-564 | Down and up move one line, paging moves one window, all within the text; home and end lead to its ends. |
| `ModalReading.BodyIsLargestFit` | internal/tui/tui.go:505-518 | A text that fits is shown whole; otherwise as many rows as the screen leaves, at least one. |
| `ModalReading.WhoIsToldNo` | internal/tui/tui.go:316-387 | The deny key says no to the head alone; an interrupt and the end of the run say no to everybody waiting. |
| `ModalReading.InterruptsLeadOut` | internal/tui/tui.go:316-387 | One interrupt quits an idle program; the first cancels a run, the second makes the program quit when the run ends. |
| `ModalReading.StartsOnlyOnInput` | internal/tui/tui.go:271-360 | A run is started exactly by non-empty input with nothing running and no approval waiting. |
| `ModalLaws.YesNeedsTheKey` | internal/tui/tui.go:271-311 | Only the approve key on a fully seen head adds a yes, and only for that head. |
| `ModalLaws.YesMeansAllShown` | internal/tui/tui.go:271-311 | In a run whose new heights credit only shown lines, whoever is told yes has had the whole command on screen. |
| `ModalLaws.QuitsOnlyWhenIdle` | internal/tui/tui.go:316-387 | The program quits only when no run is active and no approval waits. |
| `ModalLaws.GrowthIsHonestIffHarmless` | internal/tui/tui.go:528-535 | With the least honest history, growth credits only shown lines exactly when it passes the guard on the view. |
| `ModalLaws.UnshownLinesExample` | internal/tui/tui.go:537-564 | A run of four messages after which the head is approved with lines 22 to 39 never shown. |
| `ModalLaws.HarmlessNotNeededExample` | internal/tui/tui.go:528-535 | A run in which growth fails the guard but credits only lines shown before. |
| `Ulid.NewUlid` | internal/session/ulid.go:11-35 | The in-place division yields the encoding of the 48-bit time and the 80 random bits, and decodes to it. |
| `Ulid.IsUlid` | internal/session/ulid.go:37-50 | Accepts exactly the encodings of the values below 2^128. |
| `Ulid.EncodeThenDecode` | internal/session/ulid.go:11-35 | Every 128-bit value is encoded as a well-formed id that decodes to it. |
| `Ulid.DecodeThenEncode` | internal/session/ulid.go:37-50 | Every well-formed id is the encoding of its value. |
| `Ulid.WellFormedIffEncoding` | internal/session/ulid.go:37-50 | The shape check describes exactly the encodings. |
| `Ulid.EncodeKeepsOrder` | internal/session/ulid.go:11-35 | A smaller value has a lexicographically smaller id. |
| `Ulid.LaterIsLarger` | internal/session/ulid.go:11-35 | For times below 2^48 a later millisecond gives a larger id, whatever the random bits. |
| `Ulid.SymbolIsAlphabet` | internal/session/ulid.go:9 | The symbols are those of the alphabet, in its order. |
| `Credential.DecodeCredentialBlob` | internal/config/credential.go:17-37 | The unit loop and the checks compute the specified outcome. |
| `Credential.AcceptedIsEncoding` | internal/config/credential.go:17-37 | An accepted blob is exactly the UTF-8 or the UTF-16LE encoding of its text, which is not empty and has no NUL; a UTF-16 text has no U+FFFD. |
| `Credential.ReplacementAccepted` | internal/config/credential.go:17-24 | The encoded replacement character is accepted as UTF-8. |
| `Credential.Utf8ComesBack` | internal/config/credential.go:17-24 | Every non-empty text without NUL decodes back from UTF-8. |
| `Credential.Utf16ComesBackIff` | internal/config/credential.go:25-37 | A text without NUL and U+FFFD decodes back from UTF-16LE exactly when those bytes are not NUL-free UTF-8; a zero byte suffices. |
| `Credential.Utf16MisreadExample` | internal/config/credential.go:17-37 | The UTF-16LE bytes of one character are accepted as two ASCII letters. |
| `Credential.Utf16PairExample` | internal/config/credential.go:25-37 | A character beyond the basic plane, stored as a pair of units with the low byte first, is read back. |
| `Statements.SplitStatements` | internal/safety/classify.go:165-194 | The loop over the runes yields the statements, and whether every quote was closed. |
| `Statements.CutsAreExact` | internal/safety/classify.go:165-194 | The command is cut exactly at the separators outside quotes that are not escaped. |
| `Statements.QuotedIffNotClosed` | internal/safety/classify.go:165-194 | The text ends inside a quotation exactly when some quote was opened and the same character has not come again unescaped. |
| `Statements.EscapedIffOddTicks` | internal/safety/classify.go:165-194 | The next character is escaped exactly after an odd number of backticks outside single quotes. |
| `Statements.StatementIsSlice` | internal/safety/classify.go:165-194 | Statement k is exactly the text between its two cuts. |
| `Statements.WeaveRebuilds` | internal/safety/classify.go:165-194 | The statements with the separators put back are the command. |
| `Statements.SplitsApartIffCut` | internal/safety/classify.go:165-194 | Splitting two joined commands is splitting each, exactly when the joining character is a separator and the first ends outside quotes and escapes. |
| `Paths.NormalizedIsClean` | internal/safety/classify.go:272-293 | The normal form has only proper components, and `..` only in front. |
| `Paths.NormalizeIsIdempotent` | internal/safety/classify.go:272-293 | Normalising twice is normalising once. |
| `Paths.ResolvingKeepsTheWay` | internal/safety/classify.go:272-293 | For a relative path: from every directory the normal form leads to where the path leads. |
| `Paths.NormalizedKeepsTheWay` | internal/safety/classify.go:272-293 | Followed part by part from any directory, a whole path, with either kind of separator, and its normal form lead to the same place. |
| `Paths.LeadingUpIffClimbsOut` | internal/safety/classify.go:272-293 | The normal form starts with `..` exactly when the path leads above its start at some point; otherwise it has as many components as the path leads down. |
| `Paths.WithinRootIsComponentPrefix` | internal/safety/classify.go:295-304 | Being within the root is exactly a prefix test on case-folded components, with either separator after the root. |
| `Paths.ContainsIsComponentPrefix` | internal/workspace/workspace_windows.go:202-216 | The same for resolved paths, whose trailing separators do not count. |
| `Paths.SamePathIff` | internal/workspace/workspace_windows.go:214-216 | Two paths are the same exactly when, without trailing separators, they agree letter by letter in either case. |
| `Paths.TrimTakesSeparators` | internal/workspace/workspace_windows.go:202-216 | Trimming takes all separators off the end and nothing else. |
| `DrivePaths.RootedFormIff` | internal/safety/classify.go:267-293 | For a drive or share and a way from there, the normal form keeps the drive and leads to the same place exactly when the way never climbs above the drive. |
| `DrivePaths.JudgedIffReal` | internal/safety/classify.go:247-262 | If neither the root nor the path climbs above its drive, the path is judged within the root exactly when it really leads there. |
| `DrivePaths.AlwaysRightIff` | internal/safety/classify.go:247-304 | The judgement about a path is right for every root that does not climb, with drives and shares alike, exactly when the path does not climb above its drive. |
| `DrivePaths.DrivePathWithinIff` | internal/safety/classify.go:247-293 | For drive letters, a path is judged within the root exactly when it does not climb above its drive and really leads there; a climbing path is assumed to have no colon in its names. |
| `DrivePaths.ClimbPassesForWithin` | internal/safety/classify.go:272-304 | A way that climbs above its share and goes on with the share's names is judged within, but leads elsewhere. |
| `DrivePaths.ShareClimbExample` | internal/safety/classify.go:272-304 | The path with two steps up and back down is such a way. |
| `Workspaces.RelativeIffStaysBelow` | internal/workspace/workspace_windows.go:120-129 | A path is refused for climbing out exactly when some prefix of it leads above the root; an accepted one holds no `..` after cleaning. |
| `Workspaces.CleanedIsTheWay` | internal/workspace/workspace_windows.go:78-129 | The cleaned form of an accepted path is the way that it leads from the root. |
| `Workspaces.DeepestExistingAncestor` | internal/workspace/workspace_windows.go:131-147 | The loop ends; ancestor and suffix together are the candidate. |
| `Workspaces.DeepestIsLongestPresent` | internal/workspace/workspace_windows.go:131-147 | The ancestor is the prefix that is there while all longer ones are missing, and there is no other answer. |
| `Workspaces.ResolvesIff` | internal/workspace/workspace_windows.go:78-147 | A path is resolved exactly when the root is still the one bound, the path is relative, and on the way it leads the longest prefix that is not missing is there and really lies inside; the result has exactly the components of that real place followed by the missing ones. |
| `Workspaces.ResolveStaysInside` | internal/workspace/workspace_windows.go:78-110 | Whatever the file system answers, a returned path lies within the bound root. |
| `SearchText.SearchSeesReadLines` | internal/tools/search_text.go:86-91 | search_text and read_file count the same lines of a non-empty file; texts differ only by a CR that ends an unterminated last line. |
| `SearchText.HitsAreTheMatchingLines` | internal/tools/search_text.go:86-99 | The hits are exactly the matching lines, each once, numbered and in file order. |
| `SearchText.SearchLines` | internal/tools/search_text.go:86-99 | The loop appends the first hits up to the limit and stops the walk exactly when the limit is reached. |
| `Framing.CallTakesFirstPiece` | internal/pirpc/launch_windows.go:532-553 | One call hands out the first line ahead and keeps the rest, or the rest with the end of the stream. |
| `Framing.FramingIgnoresChunks` | internal/pirpc/launch_windows.go:532-553 | However the bytes are cut into reads, and however the stream ends, the same replies come out. |
| `Framing.RepliesLoseNothing` | internal/pirpc/launch_windows.go:532-553 | The lines handed out, with line feeds between them, are exactly the bytes read. |
| `Framing.FailureIsTold` | internal/pirpc/launch_windows.go:532-553 | The last reply alone tells a failure, exactly when the last read failed; the replies hold the bytes of all reads up to it. |
| `Framing.ReadUpToTheEnd` | internal/exec/runner_windows.go:279-315 | Both readers take exactly the bytes of the reads up to the first that fails or brings nothing. |
| `Framing.DrainPipe` | internal/exec/runner_windows.go:279-315 | The first bytes up to the limit are kept; truncated exactly when something was read and the limit was reached. |
| `Framing.TruncatedAtTheLimit` | internal/exec/runner_windows.go:279-315 | For a positive limit the first bytes are kept, as many as it allows; bytes are lost exactly beyond it; output of exactly the limit counts as truncated with nothing lost. |
| `RunLoop.ToolFacts.Start` | internal/agent/facts.go:60-66 | The call is open with its arguments; a repeated id replaces it. |
| `RunLoop.ToolFacts.AddModified` | internal/agent/facts.go:133-140 | A path is listed once, in the order of first modification. |
| `RunLoop.ToolFacts.EndInError` | internal/agent/facts.go:78-102 | What a failed call adds: a failure, a declined approval, or the command nobody could approve. |
| `RunLoop.ToolFacts.EndWell` | internal/agent/facts.go:103-131 | What a successful call adds: a modified file or a verification. |
| `RunLoop.ToolFacts.End` | internal/agent/facts.go:72-131 | The call is no longer open and its outcome is recorded, also for an id never seen. |
| `RunLoop.Runtime.EmitAndAppend` | internal/agent/runtime.go:406-420 | What one event shows and logs, and that a failed append is counted. |
| `RunLoop.Runtime.ProcessEvent` | internal/agent/runtime.go:247-295 | The effect of one event on the whole run state, and that only a settle ends the run. |
| `RunLoop.Runtime.ApplyFactsTo` | internal/agent/facts.go:172-227 | The facts in the report; only a completed status is lowered. |
| `RunLoop.Runtime.MakeReport` | internal/agent/runtime.go:469-495 | The report, and the summary saved from it before its own failure is noted. |
| `RunLoop.Runtime.ApplyStorageInvariant` | internal/agent/runtime.go:337-350 | A run with a failed append is failed and has an error, without hiding an earlier error. |
| `RunLoop.Runtime.FinishRun` | internal/agent/runtime.go:306-326 | The outcome of a settled run by its last stop reason. |
| `RunLoop.Runtime.StopIfUnapprovable` | internal/agent/runtime.go:230-241 | Stops exactly when a command needed approval and nobody could be asked. |
| `RunLoop.Runtime.AbnormalExit` | internal/agent/runtime.go:378-400 | The outcome when the stream ends before the run settles. |
| `Recovery.AddDeclined` | internal/agent/recovery.go:36-99 | The declined commands are added in order, capped to the newest decisions. |
| `Recovery.MergeFiles` | internal/agent/recovery.go:36-99 | Newly modified files are added once each, in order. |
| `Recovery.UpdateSummary` | internal/agent/recovery.go:36-99 | Lists accumulate up to their limits; open errors and pending items are those of the last run. |
| `Modal.Model.HandleMessage` | internal/tui/tui.go:230-311 | The whole new state for every message. |
| `Modal.Model.ScrollModal` | internal/tui/tui.go:537-564 | Where a key scrolls to, within bounds, and that reading progress grows only through windows that touch it. |
| `Modal.Model.AnswerApproval` | internal/tui/tui.go:412-421 | The head gets its answer and the next approval starts unread. |
| `Modal.Model.DropApproval` | internal/tui/tui.go:423-434 | A withdrawn approval leaves the queue unanswered; only a dropped head resets the reading progress. |
| `Modal.Model.HandleCtrlC` | internal/tui/tui.go:316-334 | Everything is denied; a run is cancelled, or the program quits when it is idle. |
| `Modal.Model.FinishRun` | internal/tui/tui.go:362-387 | The state is idle again, approvals are denied, and a requested quit happens. |
| `Sessions.Session.Create` | internal/session/store.go:65-133 | A new session has an empty log and summary and no number given out. |
| `Sessions.Session.Open` | internal/session/store.go:191-220 | A handle on existing files stands where reading them ends. |
| `Sessions.Session.AppendEvent` | internal/session/store.go:316-360 | The whole new state and the answer, for every way the storage can fail. |
| `Sessions.Session.ReadEvents` | internal/session/store.go:362-372 | The events of the log, or that it is corrupt or cannot be read; on success the handle knows the last number and whether a fragment follows. |
| `Sessions.Session.SaveSummary` | internal/session/store.go:294-304 | The stored summary's cursor is raised to the handle's last number. |
| `Sessions.Session.CloseSession` | internal/session/store.go:374-398 | Only the two exit statuses close a session; a closed handle stays closed; a failed close can be repeated. |
| `Framing.JsonlReader.ReadLine` | internal/pirpc/launch_windows.go:532-553 | One call: the reply, the bytes kept and the reads used, for every answer of the pipe. |
| `Workspaces.Resolve` | internal/workspace/workspace_windows.go:78-110 | The steps of resolving, in order, compute the specified answer. |
| `Paths.NormalizeWindowsPath` | internal/safety/classify.go:272-293 | The loop over the parts computes the normal form. |
| `FileTools.TextFile.ReadExisting` | internal/filetools/file.go:158-174 | The content, or which of the three errors. |
| `FileTools.ClampRange` | internal/filetools/file.go:65-80 | The clamped range has as many lines as the request has lines in the file, never a negative number. |

## Left out

- Win32 calls, Job Objects, git, process launching and the Credential Manager: they appear only as answers and step outcomes.
- SHA-256: the hash is an arbitrary function; it is assumed injective only where equal content is concluded.
- JSON: events are encoded by an arbitrary codec without line feeds in its output that decodes what it encoded.
- Secret masking, message wording and the shortened output of verifications: texts are kept as they are or reduced to their kind; limits on lists are modelled, `Recovery.Clip` for texts only as far as the summary uses it.
- Session metadata, locks, expiry, and the removal of the session directory on a clean close.
- Exclusion between two callers of the file swap, and other programs that rename over the target: the code does not provide it.
- Failing removal of the temporary file: it is ignored by the code and always succeeds here.
- create_file, the directory walk, globs and binary detection of search_text: easy branches.
- Timers and the clock: a timeout is an arrival or a step that may come at any time.
- The keyword and regular-expression rules of the PowerShell classifier: best effort by design.
- Terminal rendering and text wrapping: the number of wrapped lines and of title rows are arbitrary functions of prompt and width.
- Reading on after the event stream has ended.
- Sessions.LogSurvivesAnyRun: no line is written whole while the bytes of a failed append are unread; otherwise the log is unreadable (SessionFailures.AnyRunReadableIff).
- Sessions.CursorGapIsExact: the same, and a summary is saved on top of the last saved one, as the agent does.
- Recovery.GapIsTold: the same runs as Sessions.CursorGapIsExact.
- RunSessions.GapIsUnsavedRuns: the same; every run has the session open and reads the log first.
- RunSessions.SummaryTellsAllSavedRuns: says nothing exact of the files once more than two hundred were edited; RecoveryLaws.EarlierWorkIsKept says for one run which are dropped.
- SessionLedger.LogReadsAsTheLedger: the same runs as Sessions.LogSurvivesAnyRun.
- SessionLedger.SummaryIsTheLastSaved: the same runs.
- SessionLedger.AnswerTellsTheLedger: the same runs.
- UndoLaws.UndoRestores: a terminated file with one terminator and clean new texts; UndoLaws.UndoIff holds for all files.
- Sessions.Session.Create: id allocation, metadata, lock and the storage failures of creating a session are not modelled.
- Sessions.Session.Open: missing files and a lock held by another process are not modelled; the log is assumed to have been read.
- Sessions.Session.CloseSession: metadata and the removal of an unnamed session that ended cleanly are not modelled.
- SessionFailures.AnyRunReadableIff: a summary is saved on top of the last saved one, as the agent does; and the assumption of the next line.
- SessionFailures.CursorAtMostOneBehind: a summary is saved on top of the last saved one, as the agent does.
- SessionFailures.AppendsReadableIff: assumes that cut beginnings of encoded events followed by a whole event are not an event; SampleCodec.SampleKeepsItsPromises shows such a codec.
- ModalLaws.FullySeenMeansShown: a change of height that credits unshown lines is excluded, because the code then credits them; ModalLaws.HonestIffCreditsShown shows that the condition is exact.
- ModalLaws.YesMeansAllShown: the same condition.
- RunLoop.ToolFacts.EndWell: the recorded output is not shortened or masked.
- RunLoop.Runtime.ApplyFactsTo: open calls are reported by their number, because the source lists their names in the random order of a map; nothing is masked.
- RunLoop.Runtime.MakeReport: the report has no session id and no duration.
- Recovery.UpdateSummary: nothing is masked, and risks are kept as their kind rather than as clipped texts.
- Paths.WithinRootIsComponentPrefix: case folding is that of ASCII letters.
- Paths.ContainsIsComponentPrefix: case folding is that of ASCII letters.
- DrivePaths.DrivePathWithinIff: a name with a colon in a path that climbs above its drive is excluded, because it could pass for a drive; case folding is that of ASCII letters.
- Workspaces.Resolve: paths are component lists; that cleaning leaves a joined final path as it is, and whether a path is absolute or names a volume, come from outside.
- Workspaces.ResolvesIff: the components of the root hold no separator.
- Workspaces.ResolveStaysInside: the root is a clean path, as binding makes it.
- Statements.SplitStatements: commands are sequences of characters; invalid UTF-8 is not modelled.
- Replace.LockTarget: the clock does not run backwards and a pause takes at least its interval.
