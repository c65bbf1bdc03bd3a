# fetcharr: a verified model

fetcharr downloads a video with yt-dlp, optionally transcodes it, moves it into a library folder
and asks Radarr or Sonarr to import it. This project models the parts of it that have to survive
crashes, cancels, retries and hostile names, and proves what they keep.

| Modules | What they model |
|---|---|
| `Disks`, `Paths` | files changed one atomic step at a time by a process that may die before any step; pure paths |
| `Organizer`, `OrganizeStates`, `Organize`, `Resume`, `Existing`, `Prune` | the file protocol of the organize step: one move, the states a crash can leave, a run, crash after crash, files that were there before, empty folders |
| `Transcode`, `TranscodeRuns` | re-encoding in place, with the software fallback and the marker, once and run after run |
| `Text`, `Naming`, `TemplateParts`, `PathNames`, `DefaultNames` | names from templates, cut to a byte limit at code points; what a template says, where each kind of video goes, and the names the default templates give |
| `Jobs`, `JobSteps`, `JobSystem`, `JobTheorems`, `JobCompletion`, `JobCases`, `JobRuns` | one job step by step; all jobs as one transition system: rows, tasks, cancel events, slots, import locks, wake event, crash and recovery; exactly which jobs can still complete |
| `JobManager` | the manager and the job service as an object with mutable fields, each method one or more transitions of that system |
| `ImportStep` | the import step against an app that answers, fails or hangs as it likes |
| `RateLimiter` | the sliding window for logins, with every admission ever as ghost history |
| `SearchIndex` | the full-text index and the four triggers that keep it |
| `Formats`, `Command`, `Downloads` | the format selector as text with a parser and a meaning; the yt-dlp arguments; the retry loop |
| `Digits`, `Cookies`, `Sites` | what Python takes for digits; cookie files read and written, domains matched, sites chosen |

How to read it. A method that changes state is proved against a specification function or predicate;
the lemmas beside it say what that specification promises. `Disk.Step` carries out one system call (a write, an
append, a rename, an unlink), is the only place where files change, and the only place where a process can die: a contract that speaks of `trace` speaks of every
state a crash can leave. In the job system `Apply` is one atomic action and `Runs` any sequence of
them, with any number of jobs, crashes and recoveries.

## What the code does not do

The model keeps the code as it is. Where a stronger claim is made for it, the exact condition is proved.

- **Equal size is taken for equal content, and sidecar names are not checked for collisions.** All files of a
  job arrive if and only if no target holds another file of equal size (`Existing.ArriveUnlessSameSize`), and no
  file of anybody else changes if and only if every target that is taken holds a file of equal size
  (`Existing.ChangesNobodyUnlessOtherSize`). KEEP_BOTH finds a free name for the video only: with a subtitle
  standing at the new stem, the new one is deleted (`Existing.NewSubtitleIsLost`) or the old one overwritten
  (`Existing.OldSubtitleIsLost`).
- **Transcoding is not idempotent across a crash.** After any runs the source is the original after one whole
  encode for each run that reached the rename, never a torn file (`TranscodeRuns.RunAll`). It is encoded more
  than once if and only if some run was cut off between the rename and the marker and a later one reached the
  rename again (`TranscodeRuns.EncodedAgainIffCutOff`); `TranscodeRuns.EncodesTheEncode` is such a pair of runs.
- **A crash between the last move and the organize checkpoint loses the job.** Once the
  files are in place the done-check holds (`OrganizeStates.FinishedIsOrganized`), so the resumed run commits
  the checkpoint without a path, and the import step can only raise from then on, also after retries.
  Which jobs can still complete is stated exactly, for every job in every state (`JobCompletion.CompletionIsExact`).
  So a job whose organize checkpoint is in can exactly when no cancel is pending and it needs no
  import or the path is on record (`JobCompletion.OrganizeCheckpointDecides`,
  `JobTheorems.LostNeverCompletes`, `JobCases.LostIsReachable`).
- **An accepted cancel can be overtaken.** It can be lost exactly when the run is already past the last place
  where it looks at its cancel event, which after a crash happens while the row still says STARTING
  (`JobCompletion.AcceptedCancelIsSeenUnlessPastLastCheck`, `JobCases.LateCancelIsReachable`). A run that wrote
  ORGANIZING always sees it.
- **A cancel flag outlives its run.** `retry` keeps it, so a crash can cancel a job that the user asked for again:
  a run in which no cancel is accepted is cancelled by recovery if and only if its row was claimed with the flag
  set (`JobRuns.CancelledWithoutACancel`, `JobRuns.RetriedJobIsCancelled`).
- **A typed title is never imported**: without a lookup no verification succeeds
  (`ImportStep.ImportWithRetries`).
- **Changing a job's id** without naming an indexed column leaves a stale row in the search index; every other
  update keeps the index (`SearchIndex.Database.UpdateJob`, `SearchIndex.RenameLeavesStaleRow`).
- **Some expiries make `parse` raise something else.** The check for digits and `int` disagree exactly on digits
  after two dashes or more, with a digit among them that is no decimal (`²`), or more than 4300 of them
  (`Cookies.UnreadableIff`). `parse` then fails on line n if and only if the header is right, line n is such a
  cookie and every line before it is good (`Cookies.CrashedIff`).

## Model

| member | source | states |
|---|---|---|
| Disks.Disk.Step | backend/app/library/organizer.py:215-233 | one system call: it happens whole, or the process is dead and nothing changed |
| Disks.Disk.MakeDirs | backend/app/library/organizer.py:174 | the folder and its parents come one by one from the top, a crash can leave some of them, and no file changes |
| Organizer.Copy | backend/app/library/organizer.py:236-240 | in every state of a chunked copy only the partial file differs; at the end it holds all the bytes |
| Organizer.MoveAcross | backend/app/library/organizer.py:227-232 | between devices: only the partial file grows, then the destination is there whole, and the source goes last |
| Organizer.Move | backend/app/library/organizer.py:215-233 | by rename or by copy, finished or dead: every state is `Midway`, so the destination is old or wholly new and the source goes only after it; the end state is exact, and it complains exactly when both ends are missing |
| Organizer.MoveKeepsBytes | backend/app/library/organizer.py:222-224 | the source's bytes arrive if and only if no different file of the same length was in the way |
| Organizer.SameSizeLosesBytes | backend/app/library/organizer.py:222-224 | two files of three bytes for which the new bytes are lost |
| Organizer.AcceptedIsInside | backend/app/library/organizer.py:184-188 | whatever `..` a destination holds, what is accepted lies in the completed folder, in a folder that is its own resolution, under the name asked for |
| Organizer.RejectedIsOutside | backend/app/library/organizer.py:184-188 | a destination that needs no resolving is accepted as it is if and only if its folder is inside |
| Organizer.NumberedDiffers | backend/app/library/organizer.py:211-212 | two numbers never give the same name, whatever the stem and suffix |
| Organizer.KeepBothName | backend/app/library/organizer.py:204-208 | the search ends in every finite directory, at the least number whose name is free |
| Organizer.NamesSpelled | backend/app/library/organizer.py:200-233 | for a destination with an extension: the numbered name, the partial file's name and which names share the stem, spelled out |
| Organizer.DestinationSharesItsStem | backend/app/library/organizer.py:200-202 | REPLACE's name test covers the old video itself if and only if its name has a suffix |
| Organizer.ReplaceCoversOldVideo | backend/app/library/organizer.py:91-93 | the destination takes over the download's suffix, so REPLACE's test does cover the old video |
| Organizer.MoveAside | backend/app/library/organizer.py:197-203 | in any listing order, exactly the files that share the stem end in the job's own folder with their bytes; nothing outside is touched |
| OrganizeStates.FinishedIsUnique | backend/app/library/organizer.py:159-181 | only one set of files counts as finished, so crashed and uncrashed runs end the same |
| OrganizeStates.ResumableIsSafe | backend/app/library/organizer.py:175-180 | every state a crash can leave keeps the video whole at one end, never a torn destination, and never a video without its sidecars |
| OrganizeStates.IsOrganizedIsExact | backend/app/library/organizer.py:142-145 | in every such state, with the destination recorded or not, the done-check holds if and only if every file of the job has arrived |
| OrganizeStates.FinishedIsOrganized | backend/app/jobs/pipeline.py:169-179 | once all moves are done it holds without a recorded path, so the next run has nothing to record |
| OrganizeStates.ChosenIsSettled | backend/app/library/organizer.py:170-172 | every destination a first run chooses is accepted by the guard as it is, so a later run settles on it again |
| OrganizeStates.TargetSpelled | backend/app/library/organizer.py:177-179 | a sidecar goes beside the video under its base, the language and its own extension |
| Organize.WriteMarker | backend/app/library/organizer.py:153-156 | the marker appears whole or not at all, and no temporary one stays |
| Organize.MoveItem | backend/app/library/organizer.py:177-180 | one move of a planned run keeps every state resumable and the earlier moves in place |
| Organize.ResolveCollision | backend/app/library/organizer.py:191-208 | ASK refuses and changes nothing, KEEP_BOTH picks the least free number and changes nothing, REPLACE keeps the name and moves the stem's files aside |
| Organize.MoveAll | backend/app/library/organizer.py:177-181 | sidecars first and the video last, with the exact files at the end; from every resumable state every state stays resumable, and the end is finished |
| Organize.MarkDestination | backend/app/library/organizer.py:174-175 | the folder, then the marker: every state stays resumable |
| Organize.MarkAndMove | backend/app/library/organizer.py:174-181 | from the folder and the marker on: the exact files at the end, and a planned run goes as planned |
| Organize.AllKeepsAside | backend/app/library/organizer.py:174-180 | neither the marker nor the moves touch the folder of replaced files |
| Organize.OrganizeFiles | backend/app/library/organizer.py:159-181 | for each of the three policies: escapes and collisions change nothing and are reported exactly then; an uncrashed run ends with exactly the marked and moved files, and an uncrashed REPLACE loses no old file |
| Organize.OrganizeJob | backend/app/library/organizer.py:69-110 | the marker pins the destination of the first run; an `other` video never collides and takes the least free number whatever the policy, any other collides exactly under ASK on a taken destination; the error cases are exact and change nothing; old files survive as the policy has it |
| Organize.PlannedDestination | backend/app/library/organizer.py:81-99 | a re-run settles on the destination of the first, with the marker or without |
| Resume.FindSidecars | backend/app/library/organizer.py:113-126 | a later scan finds exactly the sidecars that are still in the job's folder, in order |
| Resume.LeftReachesForAll | backend/app/jobs/pipeline.py:307-328 | what a run with the sidecars that are left comes through, the whole job comes through |
| Resume.LeftFinishesAll | backend/app/jobs/pipeline.py:307-328 | and where it finishes, the whole job has finished |
| Resume.CrashAndResume | backend/app/library/organizer.py:69-181 | any number of crashes at any file step, each run finding its sidecars anew, then one run to the end: every state on the way is safe, the files are those of an uncrashed run, nothing partial or temporary is left, and the answer lists the sidecars the last run found |
| Existing.EachTarget | backend/app/library/organizer.py:215-225 | what becomes of each target: the moved bytes arrive unless another file of equal size was there, and a file that was there survives only if its size is equal |
| Existing.ArriveUnlessSameSize | backend/app/library/organizer.py:222-224 | all files of a job arrive if and only if no target holds another file of equal size |
| Existing.ChangesNobodyUnlessOtherSize | backend/app/library/organizer.py:171-180 | nobody else's file changes if and only if every target that is taken holds a file of equal size, KEEP_BOTH or not |
| Existing.NewSubtitleIsLost | backend/app/library/organizer.py:177-179 | a movie whose new subtitle is deleted because one of equal size stands at its name |
| Existing.OldSubtitleIsLost | backend/app/library/organizer.py:177-179 | the same movie with a subtitle of another size, which is overwritten |
| Prune.PruneEmptyDirs | backend/app/library/organizer.py:129-139 | exactly the folders strictly below the root that hold nothing but the pruned path are removed |
| Prune.RemovableIsOnlyPath | backend/app/library/organizer.py:134-138 | a folder can be removed after those below it if and only if it held nothing else to begin with |
| Transcode.ClearTempFiles | backend/app/transcode/runner.py:75-79 | all temporary files go and nothing else changes, in every state |
| Transcode.TempIsSpelled | backend/app/transcode/profiles.py:53-57 | the temporary files are those of the job's folder named `transcoded.tmp.` and anything |
| Transcode.OutputIsSpelled | backend/app/transcode/profiles.py:118-124 | the output is one of them, by its container; the marker is not |
| Transcode.Encode | backend/app/transcode/runner.py:103-158 | whatever ffmpeg writes on its way, only the output file changes; it is a complete encode exactly on success |
| Transcode.EncodeWithFallback | backend/app/transcode/runner.py:168-221 | at most two encodes, the second only in software after a hardware failure; until the replacement only temporary files change |
| Transcode.FallBack | backend/app/transcode/runner.py:205-217 | the second encode starts from nothing of the first, and changes the output file only |
| Transcode.ReplaceSource | backend/app/transcode/runner.py:224-227 | one rename and then the marker: the source is never torn and the marker never comes first |
| Transcode.PutInPlace | backend/app/transcode/runner.py:219-227 | as the end of a step: the source becomes its last encode, or nothing has changed |
| Transcode.TranscodeSource | backend/app/transcode/runner.py:168-227 | at every crash point the source holds the original or one complete encode, and a marker comes only with the encode |
| TranscodeRuns.RunOnce | backend/app/jobs/pipeline.py:160-167 | nothing to do exactly when the marker is there; otherwise the source becomes its last encode or only temporary files change |
| TranscodeRuns.RunAll | backend/app/transcode/runner.py:168-227 | over any crashed and repeated runs the source is the original after one whole encode for each run that reached the rename, in order, in every state; the marker is there exactly when one of them left it |
| TranscodeRuns.EncodedAgainIffCutOff | backend/app/transcode/runner.py:224-227 | an encode is encoded if and only if a run was cut off between rename and marker and a later one reached the rename |
| TranscodeRuns.EncodesTheEncode | backend/app/transcode/runner.py:224-227 | two such runs on any disk without leftovers, which encode the encode |
| Paths.ResolveCanonical | backend/app/library/organizer.py:184-188 | a path without `.` and `..` resolves to itself |
| Paths.ResolveCancels | backend/app/library/organizer.py:184-188 | a name and the `..` after it cancel out wherever they stand, `.` and empty pieces say nothing, and there is nothing above the root |
| Paths.PrintParse | backend/app/library/organizer.py:148-156 | the destination read from the marker is the one written to it |
| Text.Cut | backend/app/library/naming.py:148-150 | the longest start within the byte limit that ends at a code point |
| Text.WidthIsUtf8 | backend/app/library/naming.py:148-150 | the bytes counted for a code point are those of its UTF-8 form |
| Naming.SanitizeIsClean | backend/app/library/naming.py:110-114 | no separator, illegal character or double space, nothing to strip, and a colon only ever replaced |
| Naming.SanitizeIdempotent | backend/app/library/naming.py:110-114 | sanitizing a sanitized text changes nothing, in any colon mode |
| Naming.SanitizeOfClean | backend/app/library/naming.py:110-114 | of a text that is already clean, only spaces and dots at its ends go |
| Naming.FirstColon | backend/app/library/naming.py:96-107 | in each of the five modes, what becomes of the first colon and then of the rest |
| Naming.IllegalGo | backend/app/library/naming.py:34-113 | exactly the eight illegal characters go, and every other stays in its place |
| Naming.RunBecomesSpace | backend/app/library/naming.py:35-114 | a run of white space of any kind and length becomes one space |
| Naming.CutName | backend/app/library/naming.py:150-151 | a name cut at the limit starts as the full name does, fits, and has nothing to strip |
| Naming.ExpandIsFill | backend/app/library/naming.py:130-136 | a template's tokens are found without looking at any value, so token text inside a title is never expanded |
| TemplateParts.RenderSays | backend/app/library/naming.py:130-136 | any template made of text, tokens and bracketed blocks says what its parts say, without the blocks that ask for an empty value |
| Naming.RenderSlash | backend/app/library/naming.py:130-136 | a rendered name holds a separator if and only if the kept part of the template does |
| Naming.RoundIsTight | backend/app/library/naming.py:147-151 | each round gives up what overflows, less than one code point more, and the spaces and dots then at the end |
| Naming.TitleGivesWayFirst | backend/app/library/naming.py:139-154 | the name fits the limit; it is untouched if it fitted before; only the end of the episode title is given up, and the name itself is cut only once the title is gone |
| Naming.NamesAreGood | backend/app/library/naming.py:139-154 | for every template, value set and limit: at most `limit` bytes, no space or dot at an end, no separator the template did not have |
| Naming.ShortName | backend/app/library/naming.py:139-154 | the loop ends and computes that name, or reports that it is empty |
| PathNames.BuildPath | backend/app/library/naming.py:187-220 | category, folders and file each come from their own template; it fails if and only if one of the names is empty |
| PathNames.SpecialIsZero | backend/app/library/naming.py:212-214 | the specials folder is used exactly for season 0, or the year 0 of a daily show without a season |
| PathNames.PathIsSafe | backend/app/library/naming.py:187-220 | with templates without separators every component is one safe name of at most 255 bytes, and any suffix of 40 bytes still fits on the file's base |
| PathNames.StaysInside | backend/app/library/organizer.py:184-188 | such a path resolves to itself and stays under its category folder |
| PathNames.GuardAcceptsBuiltPath | backend/app/library/organizer.py:184-188 | the organize step's guard takes every built path as it is, and its file name is no partial file's |
| DefaultNames.EachTokenReads | backend/app/library/naming.py:157-184 | for every kind of video, which field each token reads, numbers in decimal with at least two digits where asked, ISO dates, and nothing for the other kinds' tokens |
| DefaultNames.SpellsOnce | backend/app/library/naming.py:170-180 | a number has one spelling of a given least width |
| DefaultNames.EpisodePath | backend/app/library/naming.py:69-80 | with the default templates and a name that fits: show, season or specials, and `Show - S01E05 - Title Quality` |
| DefaultNames.DailyPath | backend/app/library/naming.py:69-81 | the same for a daily show, by date, in the folder of its season or its year |
| DefaultNames.MoviePath | backend/app/library/naming.py:69-74 | the same for a movie; the year's brackets are there exactly when the year is known |
| DefaultNames.OtherPath | backend/app/library/naming.py:69-82 | the same for any other video; the id's brackets are there exactly when the id is not empty |
| DefaultNames.DefaultsAreSlashFree | backend/app/library/naming.py:69-83 | the default templates hold no separator, so the promises about safe paths are theirs |
| Naming.SidecarNameIs | backend/app/library/naming.py:284-286 | a clean language goes between the video's base and the sidecar's extension |
| Jobs.LocalKeepsInv | backend/app/jobs/pipeline.py:146-187 | every step of a job keeps row, task and cancel event in agreement |
| Jobs.RecoverKeepsInv | backend/app/jobs/manager.py:586-606 | recovery leaves every row in a state a run can start from |
| JobSteps.WorkCommits | backend/app/jobs/pipeline.py:146-187 | finished work of any step but the import commits exactly its checkpoint and goes on to the next step, status and all else kept |
| JobSteps.SlottedStepCommits | backend/app/jobs/pipeline.py:229-304 | a download or transcode from the head of the loop: slot, status, work, checkpoint, and nothing else changed |
| JobSteps.MergeShows | backend/app/jobs/manager.py:320-330 | the late POSTPROCESSING write changes the status only, and the checkpoint waits for it |
| JobSteps.OrganizeCommits | backend/app/jobs/pipeline.py:307-342 | an organize step records ORGANIZING, its checkpoint and the path |
| JobSteps.ImportCommits | backend/app/jobs/pipeline.py:410-438 | an import step records IMPORTING, its checkpoint and the verdict |
| JobSteps.DoneChecks | backend/app/jobs/pipeline.py:155-187 | which steps can count as done already, and which must |
| JobSteps.SkippedStepCommits | backend/app/jobs/pipeline.py:155-187 | a step that is done already is committed without its status or anything else |
| JobSteps.EventEndsRun | backend/app/jobs/pipeline.py:190-192 | at each of the places that look at a set event the run ends cancelled and the flag is answered |
| JobSteps.ErrorEndsRun | backend/app/jobs/manager.py:412-422 | any other error ends the run failed and leaves the flag |
| JobSteps.CancelledOnlyIfAsked | backend/app/jobs/manager.py:410-422 | no job becomes cancelled but by a cancel while queued or by a run whose event was set |
| JobSteps.WholeRun | backend/app/jobs/pipeline.py:146-187 | a claimed job that nobody cancels and whose work succeeds completes by its own steps, with path and verdict |
| JobSteps.NewJobCompletes | backend/app/jobs/manager.py:236-422 | so does a new job from the row that creating it writes |
| JobSystem.StepFrame | backend/app/jobs/manager.py:447-482 | a job's step changes that job and the shared pool only |
| JobSystem.ActionKeepsInvariant | backend/app/jobs/manager.py:229-308 | every action of any job, the loop, a crash or a recovery keeps the whole invariant |
| JobSystem.RunsKeepInvariant | backend/app/jobs/manager.py:156-308 | so does every run |
| JobTheorems.TasksSlotsAndLocks | backend/app/jobs/manager.py:144-149 | in every reachable state each active job has exactly one task and one cancel event, free slots and holders add up to the limits, and an app has at most one import in flight |
| JobTheorems.VerdictsAndCompletion | backend/app/jobs/pipeline.py:410-438 | an import verdict implies the import checkpoint and a recorded path; a completed movie or episode has a verdict |
| JobTheorems.NoLostWakeup | backend/app/jobs/manager.py:210-234 | while the loop is blocked on an unset event, whoever queued a waiting job has still to call `wake`, and that sets it |
| JobTheorems.CheckpointsOnlyAdvance | backend/app/jobs/manager.py:470-482 | over every run a checkpoint only moves forward, but for `retry_import`, which takes it from import to organize and never further |
| JobTheorems.CommittedStepNeverRunsAgain | backend/app/jobs/pipeline.py:146-187 | over every run no step whose checkpoint is committed runs again, but for the import step after a `retry_import` |
| JobTheorems.DoomedNeverCompletes | backend/app/jobs/service.py:82-106 | a job with a cancel still to be seen never completes, whatever crashes, until it is retried |
| JobTheorems.OrganizingRunSeesItsCancel | backend/app/jobs/pipeline.py:307-309 | a run that wrote ORGANIZING with its event set never completes, also across crashes |
| JobCompletion.CompletionIsExact | backend/app/jobs/pipeline.py:146-187 | for every job in every state, running, queued or stored, with other jobs, crashes and full slots: exactly when it can still complete without a retry |
| JobCompletion.HopelessNeverCompletes | backend/app/jobs/pipeline.py:146-187 | where it cannot, no run completes it |
| JobCompletion.RunGoesForward | backend/app/jobs/pipeline.py:146-187 | where its run can, the next step is possible and brings it closer |
| JobCompletion.AcceptedCancelIsSeenUnlessPastLastCheck | backend/app/jobs/service.py:82-106 | after an accepted cancel the job can still complete if and only if the run is past its last check and its import can work |
| JobCases.LateCancelIsReachable | backend/app/jobs/manager.py:586-606 | such a cancel is reachable from an empty database |
| JobTheorems.LostNeverCompletes | backend/app/jobs/pipeline.py:410-415 | a movie or episode past organize without a path never completes and never gets a verdict |
| JobCompletion.OrganizeCheckpointDecides | backend/app/jobs/pipeline.py:169-179 | after the organize checkpoint completion is possible if and only if no cancel is pending and no import is needed or the path is there |
| JobCases.LostIsReachable | backend/app/jobs/pipeline.py:169-179 | one crash at the wrong moment leads there from an empty database |
| JobRuns.QueueStep | backend/app/jobs/manager.py:236-303 | a job leaves the queue by its claim or a cancel only, and comes into it by create, retry, retry_import or recovery only |
| JobRuns.ClaimsBalanceEnqueues | backend/app/jobs/manager.py:229-234 | over every run, claims, withdrawals and the place in the queue at the end add up to enqueues and the place at the start: each enqueue is claimed once, withdrawn, or still waiting |
| JobRuns.EnqueuedBetween | backend/app/jobs/manager.py:229-234 | a job that does not wait is not claimed before something has put it into the queue |
| JobRuns.CancelledWithoutACancel | backend/app/jobs/manager.py:586-606 | with no cancel accepted in its run, recovery cancels a job if and only if its row was claimed with the flag set |
| JobRuns.RetriedJobIsCancelled | backend/app/jobs/service.py:108-123 | such a row is reachable: a job the user retried is cancelled by a crash |
| JobManager.LexLessTotal | backend/app/jobs/manager.py:236-259 | the claim order never leaves two sort keys undecided |
| JobManager.BeforeTotal | backend/app/jobs/manager.py:236-259 | of two different jobs exactly one is claimed first |
| JobManager.FirstDifferenceDecides | backend/app/jobs/manager.py:244-252 | the first column in which two keys differ decides, and the smaller value comes first |
| JobManager.BeforeIsDocumented | backend/app/jobs/manager.py:244-252 | the claim order is: oldest request, oldest job, season, episode, air date, and the id last; a missing one first |
| JobManager.Manager.RecoverRows | backend/app/jobs/manager.py:586-606 | queued and ended rows stay as they are; every other becomes cancelled, queued or failed as its flag and the setting say, its flag cleared and nothing else changed |
| JobManager.Manager.RecoverRow | backend/app/jobs/manager.py:586-606 | a requested cancel ends as cancelled, otherwise the setting decides between queued and failed; the flag is cleared and nothing else of the row changes |
| JobManager.Manager.Start | backend/app/jobs/manager.py:156-162 | recovery, an empty memory and a first wake |
| JobManager.Manager.FirstQueued | backend/app/jobs/manager.py:236-259 | finds the queued job of the oldest request, and in it of the oldest job, first season, episode and date, or that there is none |
| JobManager.Manager.ClaimAndStart | backend/app/jobs/manager.py:236-303 | claim and start are one transition of the system |
| JobManager.Manager.ClaimAll | backend/app/jobs/manager.py:229-234 | the inner loop claims every queued job exactly once, oldest request first, and changes no other |
| JobManager.Manager.CancelJob | backend/app/jobs/service.py:82-106 | too late exactly once it is organizing, importing or over; a running job gets its flag and event, a queued one ends here, and nothing else changes |
| JobManager.Manager.RetryJob | backend/app/jobs/service.py:108-123 | requeues exactly failed jobs and owes a wake-up |
| JobManager.Manager.RetryImportOf | backend/app/jobs/service.py:125-142 | requeues exactly refused or failed imports, one checkpoint back and with the path on record |
| JobManager.Manager.Checkpoint | backend/app/jobs/manager.py:470-482 | commits step and fields together |
| JobManager.Manager.FinishAndForget | backend/app/jobs/manager.py:494-539 | ends the row and drops task and event together |
| ImportStep.Verify | backend/app/jobs/pipeline.py:551-565 | what was seen decides the answer, in all cases: success exactly with the file seen gone and right after it a non-empty library path |
| ImportStep.SendCommand | backend/app/jobs/pipeline.py:527-535 | the narrow path, and the folder after it exactly when that failed with a client error and differs |
| ImportStep.Poll | backend/app/jobs/pipeline.py:538-548 | gives up with a timeout only after the deadline |
| ImportStep.SendAndVerify | backend/app/jobs/pipeline.py:484-490 | under the lock: one or two commands, and a success only when it is verified after them |
| ImportStep.ImportOnce | backend/app/jobs/pipeline.py:478-508 | the lock is taken once and always given back, commands go out only under it, at most two, none when a verification comes first |
| ImportStep.ImportWithRetries | backend/app/jobs/pipeline.py:445-475 | at most the policy's attempts and twice as many commands; only server errors, timeouts and transport errors are retried; every failure becomes an outcome; IMPORTED if and only if proven; NOT_IMPORTED only when a verification after a command spoke against it |
| ImportStep.NoCommandAfterProof | backend/app/jobs/pipeline.py:478-503 | no command is sent once a verification has succeeded |
| ImportStep.ProofSpelled | backend/app/jobs/pipeline.py:551-565 | what such a proof is in the log, and that nothing follows it but the lock given back |
| ImportStep.OnlyUnderTheLock | backend/app/jobs/pipeline.py:484-490 | in every log of the step each command stands between taking the lock and giving it back, and the lock is never taken twice |
| RateLimiter.AdmissionKeepsOrder | backend/app/auth/utils.py:92-97 | an admission with fewer than five in the window keeps any two that are five apart a minute apart |
| RateLimiter.WaitIsExact | backend/app/auth/utils.py:94-95 | the answer is 1 to 60; a second less is too early and from then on there is room |
| RateLimiter.DropKeepsStored | backend/app/auth/utils.py:88-89 | dropping stale keys loses nothing the window still needs |
| RateLimiter.LoginRateLimiter.DropStale | backend/app/auth/utils.py:88-89 | forgets exactly the keys whose last admission has left the window |
| RateLimiter.LoginRateLimiter.Hit | backend/app/auth/utils.py:85-97 | lets through if and only if fewer than five of the key were admitted in the last minute; otherwise waiting as told, with none admitted in between, is enough and no shorter whole wait is |
| RateLimiter.WindowCounts | backend/app/auth/utils.py:85-97 | the count in the window is of the key's admissions in the last 60 seconds, and of no other |
| SearchIndex.InsertKeepsJoin | backend/app/db/migrations/versions/0009_history_search.py:49-53 | the insert trigger adds exactly the new row of the join |
| SearchIndex.DeleteKeepsJoin | backend/app/db/migrations/versions/0009_history_search.py:61-66 | the delete trigger removes exactly the job's row |
| SearchIndex.RetitleKeepsJoin | backend/app/db/migrations/versions/0009_history_search.py:67-71 | the title trigger turns the old join into the new one |
| SearchIndex.SilentUpdate | backend/app/db/migrations/versions/0009_history_search.py:54-60 | an update that fires no trigger keeps the join if and only if it keeps the id |
| SearchIndex.RenameLeavesStaleRow | backend/app/db/migrations/versions/0009_history_search.py:54-60 | a concrete update that leaves a stale row |
| SearchIndex.Database.Upgrade | backend/app/db/migrations/versions/0009_history_search.py:83-91 | over any existing tables the migration ends with the index equal to the join: every job once, with its request's title and its own columns |
| SearchIndex.Database.Backfill | backend/app/db/migrations/versions/0009_history_search.py:74-78 | the backfill makes an empty index the join, each row once |
| SearchIndex.Database.InsertRequest | backend/app/db/migrations/versions/0009_history_search.py:48-72 | a new request needs no trigger: the index is still the join |
| SearchIndex.Database.InsertJob | backend/app/db/migrations/versions/0009_history_search.py:49-53 | inserting a job keeps the index the join |
| SearchIndex.Database.UpdateJob | backend/app/db/migrations/versions/0009_history_search.py:54-60 | the index stays the join if and only if the id is kept or an indexed column is named |
| SearchIndex.Database.DeleteJob | backend/app/db/migrations/versions/0009_history_search.py:61-66 | deleting a job keeps the index the join |
| SearchIndex.Database.DeleteRequest | backend/app/db/migrations/versions/0009_history_search.py:61-66 | deleting a request deletes exactly its jobs and keeps the index the join |
| SearchIndex.Database.UpdateRequest | backend/app/db/migrations/versions/0009_history_search.py:67-71 | updating a request, its title or anything else, keeps the index the join |
| Formats.BuildParses | backend/app/ytdlp/formats.py:24-58 | the text that is built parses, and says the preferences in order and then the script's own alternatives |
| Formats.ScriptParses | backend/app/ytdlp/formats.py:61-66 | the script's text parses to its own alternatives |
| Formats.PreferencesDecideOnlyWhenTheyCan | backend/app/ytdlp/formats.py:35-58 | for every set of formats: while some pair has all that was asked for, such a pair is picked, with the first codec that has one; otherwise the pick is the script's |
| Formats.SomethingPickedIffScriptPicks | backend/app/ytdlp/formats.py:35-58 | something is picked if and only if the script's selector picks something |
| Formats.CeilingIsObeyed | backend/app/ytdlp/formats.py:39-41 | no pick is taller than the quality asked for |
| Formats.CeilingIsInTheName | backend/app/ytdlp/formats.py:10-21 | the ceiling is the number in the quality's name, 2160 for 4k, none for the best |
| Formats.WantedSpelled | backend/app/ytdlp/formats.py:6-56 | what a wanted pair is for each codec preference, H.264 before VP9 where the GPU decodes |
| Formats.BestIsLast | backend/app/ytdlp/formats.py:24-58 | of what fits, the last in the list is picked |
| Formats.ScriptSpelled | backend/app/ytdlp/formats.py:61-66 | the script's text for either container |
| Formats.WithoutPreferencesIdentical | backend/app/ytdlp/formats.py:24-66 | the text is the script's own if and only if there are no preferences |
| Formats.SelectorStartsWithB | backend/app/ytdlp/formats.py:57-66 | the text is never one that reads as an option |
| Command.UrlIsLast | backend/app/ytdlp/command.py:20-104 | the URL comes last, and one that reads as an option is refused |
| Command.ArgvSpelled | backend/app/ytdlp/command.py:33-128 | the whole list, option by option and in order |
| Command.YoutubeHosts | backend/app/ytdlp/command.py:15-17 | which hosts get the challenge solver |
| Command.FlagIsFirst | backend/app/ytdlp/command.py:33-60 | nothing the user chose can be taken for the fragments flag before it |
| Command.DowngradeFragments | backend/app/ytdlp/command.py:131-135 | only the value after the first flag changes, or an error when flag or value is missing |
| Command.DowngradeIsRebuild | backend/app/ytdlp/command.py:131-135 | downgrading is building again with one fragment |
| Command.DowngradeTwice | backend/app/ytdlp/command.py:131-135 | downgrading again changes nothing |
| Downloads.Process.RunOnce | backend/app/ytdlp/runner.py:142-200 | one attempt is logged with its arguments; it ends cancelled if and only if the event is set when the process has ended |
| Downloads.Process.ReadFinalPath | backend/app/ytdlp/runner.py:109-115 | the last line of the file that is not blank; no file is an error that is not retried, blank lines only a failure that is |
| Downloads.Download | backend/app/ytdlp/runner.py:203-251 | at most retries + 1 attempts, every one but the last a retryable failure, waits of 4, 6, 8 … seconds, downgraded arguments after an exit code 2, and the answer is the last outcome |
| Downloads.RetriesUseOneFragment | backend/app/ytdlp/runner.py:233-241 | with built arguments, every attempt after an exit code 2 is the same download with one fragment and every one before is the download as built |
| Cookies.SplitLinesUnlines | backend/app/ytdlp/cookies.py:42-67 | lines written with a newline each are read back as those lines |
| Cookies.Parse | backend/app/ytdlp/cookies.py:40-62 | the loop computes what the lines say one by one |
| Cookies.FirstWrongLine | backend/app/ytdlp/cookies.py:48-61 | an error names the first wrong line and what is wrong with it; without an error no line is wrong |
| Cookies.ParsedIsReadable | backend/app/ytdlp/cookies.py:40-62 | every cookie that parsing returns is what its own line says |
| Cookies.NothingIff | backend/app/ytdlp/cookies.py:50-53 | blank lines and comments are passed over, and no other line is |
| Cookies.OtherThanSeven | backend/app/ytdlp/cookies.py:54-56 | a line of other than seven fields is wrong |
| Cookies.SevenFields | backend/app/ytdlp/cookies.py:54-61 | seven fields are a cookie of the domain in the first, marked or not, that expires at the number in the fifth |
| Cookies.ParseRender | backend/app/ytdlp/cookies.py:40-67 | rendering and parsing again gives back exactly the list |
| Cookies.RewriteChangesNothing | backend/app/ytdlp/cookies.py:40-67 | a parsed file survives being rewritten |
| Digits.DigitIsNoSpace | backend/app/ytdlp/cookies.py:57-58 | no digit is white space or a dash, so stripping and the check do not interfere |
| Cookies.SpelledExpiry | backend/app/ytdlp/cookies.py:57-61 | what the expiry is, for any white space, any number of dashes and any digits |
| Cookies.UnreadableIff | backend/app/ytdlp/cookies.py:57-61 | `int` raises if and only if the field is digits with two dashes or more, a digit that is no decimal, or more than 4300 of them |
| Cookies.CrashedIff | backend/app/ytdlp/cookies.py:40-62 | `parse` fails so on line n if and only if the header is right, line n is such a cookie and all lines before it are good |
| Cookies.TwoDashesCrash | backend/app/ytdlp/cookies.py:57-61 | `--5` is such a field |
| Cookies.SuperscriptCrashes | backend/app/ytdlp/cookies.py:57-61 | so is a superscript two |
| Cookies.TooManyDigitsCrash | backend/app/ytdlp/cookies.py:57-61 | so are 4301 zeros |
| Sites.MatchesByLabels | backend/app/sites/utils.py:25-29 | a host matches if and only if its last labels are the domain's labels |
| Sites.CaseAndEndDotsDontMatter | backend/app/sites/utils.py:25-29 | case and dots at the ends make no difference |
| Sites.PlainHostStays | backend/app/sites/utils.py:25-29 | and nothing else of a host does |
| Sites.MatchSite | backend/app/sites/utils.py:32-40 | the longest matching domain wins, of the first site that has one so long; nothing only when nothing matches |
| Sites.Keep | backend/app/sites/utils.py:43-45 | a cookie is kept if and only if its domain matches one of the site's |
| Sites.KeepOfParts | backend/app/sites/utils.py:43-45 | order and repetition stay: what is kept of a list is what is kept of its parts |
| Sites.StoringIsAFixpoint | backend/app/sites/utils.py:43-45 | the stored part of an upload parses to exactly those cookies, and filtering and storing it again gives the same file |

## Left out

- Processes: yt-dlp, ffmpeg and ffprobe are outcomes chosen freely (exit code, bytes written, probe result); signals and log lines are not modelled.
- HTTP and JSON: an app's answer is a value or one of the error kinds. Step timings, log text, progress rows and published events are not modelled.
- Databases: a transaction is one atomic step. WAL, Alembic and the other migrations are not modelled.
- Power loss: a crash is the death of the process between two atomic steps, so writes are not reordered and a missing fsync cannot be seen. An OSError in the middle of a run acts like such a death.
- Symbolic links: resolving a path is lexical.
- KeepBothName: only files count as taken, not a folder with the candidate's name.
- Two organizers racing for one destination: the existence check and the rename are not locked, so jobs are assumed to have their own destinations.
- MoveAside: only files are moved, not folders that share the stem; and what REPLACE keeps is stated for runs that are not cut off, because old files are moved aside before the marker exists.
- Encode: that ffmpeg exits with success and that its output is complete are one choice of the environment.
- Unicode: NFC normalisation is the identity on text already normalised (UAX #15), lone surrogates do not occur, and `str.lower` is ASCII. Digits are those of Unicode 15.1.
- FinishAndForget: the terminal write and `_forget` are one step, as are the claim's commit and `_start`.
- RetryImportOf: asks for a job that has ended, which the service does not check; between the import checkpoint and the terminal write its update would be overwritten.
- LostIsReachable: the done-check's answer is a choice of the transition system; `FinishedIsOrganized` says that the files give it.
- ClaimAll: the inner loop is left alone; what holds while others act is `ClaimsBalanceEnqueues`.
- Deleting a running job is not modelled.
- Exceptions while a run's context is being built, before its own error handling begins, are not modelled.
- The writer lock is first come, first served: a progress write that is already waiting goes before the task's later writes.
- `execute`, `_run_job` and the waiting of the claim loop are transitions of `Jobs` and `JobSystem`, because other tasks and the user act between their steps; no method has their loop.
- Fairness of the semaphores and liveness of a run are not stated; what can still complete is.
- An import with no app configured is a refusal without a call and is not part of `ImportStep`.
- yt-dlp's selector language: only `/`, `+`, `bv*`, `ba`, `b` and the filters the code emits; the fallback of `b` on sites with incomplete formats is not modelled.
- URL parsing: the host name of a URL is a parameter of `Command` and `Sites`.
- `quality_label`: the quality's text is a parameter of `BuildPath`.
- `build_argv` is modelled as an expression, not as a list that grows; joining languages and categories with commas is left to the caller.
- MatchSite: takes the sites in the order `sorted` yields; sorting them is not modelled.
- Times in the limiter are real numbers, not floats.
- CompletionIsExact: asks for a slot of each kind while a slot is still needed; with a limit of zero nothing is said.
- EpisodePath, like `DailyPath`, `MoviePath` and `OtherPath`, is for names whose parts are not empty and that fit; what is rendered otherwise is `RenderSays`, and what is cut is `TitleGivesWayFirst`.
- PathIsSafe: promises nothing about the components of a template with a separator in its literal text; its names are computed all the same.
- Passwords, sessions, settings, presets, server-sent events, status pages, hardware checks and the web front end are easy or not about state.
