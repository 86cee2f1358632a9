# Stream recording schedulers, modelled in Dafny

This project models the scheduling core of two small Python 2 scripts that
record network video streams to `.ts` files through VLC.

- `stream.py` expands a daily template into recording windows. It pairs
  every window with every stream of the configuration, which gives a table
  of numbered jobs. It then polls: each turn starts the jobs whose window is
  open and stops the captures whose window has closed.
- `stream_ref.py` parses a schedule file into recordings keyed by
  "start channel". Each turn of its loop stops the captures that are over
  and starts (or reports as missed) every recording whose start has passed.
  On a key press it reloads the schedule, merging a revised table into the
  upcoming and the running recordings by schedule id.

Both scripts name their output files the same way: a stem, then `.ts`,
then `_0.ts`, `_1.ts`, … until the output directory does not hold the name.

Modules:

- `Naming` holds the shared file-name search, Python's `%d` and
  `replace(' ', '_')`.
- `Capture` is the capture engine as a black box with numbered handles: it
  tracks the live handles and the files of the output directory.
- `Dict` picks an element of a key snapshot, standing for dictionary
  iteration in an unspecified order.
- `Stream` and `StreamLoop` model `stream.py`: the schedule, the job table
  and the output name; then the poll turn, as the class `Poller`.
- `StreamRef` and `StreamRefLoop` model `stream_ref.py`: the parser and the
  output name; then the loop turn and the reload, as the class `Scheduler`.

Times are whole seconds on one clock, and minutes are multiplied by 60.
The current time, the formatted time stamp of a file name and the directory
listing are inputs. Each loop that updates a dictionary in place is a
method over `map` fields. Each such method is proved against a
specification function (`TemplateSchedule`, `Grid`, `Parsed`, `Revise`) or
against a relation between the old and the new state.

## Model

| member | source | states |
|---|---|---|
| Naming.Decimal | stream.py:101 | `%d` of a counter is a non-empty string of decimal digits, one digit exactly below 10 |
| Naming.DecimalValue | stream.py:101 | the digits `%d` prints denote the counter itself, with no leading zero |
| Naming.DecimalInjective | stream.py:101 | two counters print the same only when they are equal |
| Naming.Underscored | stream.py:92 | `replace(' ', '_')`: same length, no space left, spaces become `_`, every other character is kept |
| Naming.AttemptHasExtension | stream.py:95-101 | every name the search tries ends with the extension |
| Naming.AttemptInjective | stream.py:100-102 | the names tried are pairwise different |
| Naming.FirstFreeUnique | stream.py:96-102 | the search has only one possible result for a stem and a listing |
| Naming.FirstFreeInListing | stream.py:89-102 | searching the `.ts` files only gives the first free name of the whole listing, and that name is not listed |
| Naming.SecondSearchTakesZeroSuffix | stream.py:95-102 | in an empty directory two searches for one stem give `stem.ts` and then `stem_0.ts` |
| Naming.NotYetTried | stream.py:100-102 | a name tried at step m was not among the names tried before step m |
| Naming.FreeName | stream.py:96-102 | the loop ends, and returns a name not taken that is the first free one of `stem.ts`, `stem_0.ts`, … |
| Capture.HandlesAdd | stream.py:132-136 | a capture with a new handle adds exactly that handle to a table's handles, and they stay distinct |
| Capture.HandlesRemove | stream.py:144-145 | dropping a capture removes exactly its handle, and the rest stay distinct |
| Capture.HandlesReplace | stream_ref.py:291 | replacing a running entry by one with the same handle, as a new end does, keeps the handles |
| Capture.Recorder.Start | stream.py:9-18 | a capture starts under a handle never issued before, and its output file joins the directory |
| Capture.Recorder.Stop | stream.py:21-25 | stopping releases exactly that live handle and leaves the directory alone |
| Stream.CreateSchedule | stream.py:42-63 | the loop returns the template's windows at time `now` (`TemplateSchedule`); it needs duration plus pause above zero only when the clipped start is before the end, and otherwise returns no window |
| Stream.WindowsShape | stream.py:53-61 | there is a window exactly when the cursor is before the end; the first starts at the cursor; each lasts one duration and starts before the end |
| Stream.WindowsChain | stream.py:58-61 | each next window starts one pause after the previous one ends |
| Stream.WindowsClosedForm | stream.py:56-61 | window i starts i steps of duration plus pause after the first start |
| Stream.WindowsReachEnd | stream.py:56-61 | no part of the day is skipped: the start after the last window is at or past the end |
| Stream.WindowsOrdered | stream.py:56-61 | with positive duration and no negative pause, windows are in increasing order and do not overlap |
| Stream.WindowsCount | stream.py:56-61 | the number of windows is the number of steps needed to pass the end bound |
| Stream.TemplateScheduleShape | stream.py:53-61 | the schedule is empty exactly when the clipped start is not before the end; otherwise it starts there, windows last the duration and are one pause apart |
| Stream.HourlyTemplateAtTen | stream.py:53-61 | an hourly template read at 10:00 gives 14 windows, from 10:00-11:00 to 23:00-24:00 |
| Stream.InitializeRecords | stream.py:66-80 | the ids are exactly 0 to n-1 and id k holds the k-th job of the window-by-stream grid |
| Stream.GridLength | stream.py:69-78 | there is one job per window and stream |
| Stream.GridCell | stream.py:69-78 | id i*streams+j holds stream j in window i |
| Stream.GridEntry | stream.py:69-78 | every id k is stream k mod streams in window k div streams |
| Stream.GenerateOutfile | stream.py:83-104 | the name is not in the directory and is the first free one for the stamp plus the underscored stream name |
| Stream.OutfileStemHasNoSpace | stream.py:92-94 | the stem has no space when the stamp has none |
| StreamLoop.Poller.constructor | stream.py:116-122 | the jobs are the grid of the template's windows, and nothing runs; a template whose clipped start is at or past its end gives no job, whatever its duration and pause |
| StreamLoop.Poller.StartJob | stream.py:128-137 | a due job moves from `records` to `handling` with a new handle, and its file is the first name not in the directory for the stamp and the underscored stream name (`generate_outfile`) |
| StreamLoop.Poller.StartIfDue | stream.py:128-137 | a due job is started and moves to `handling` with a fresh capture whose file is the first free name for the stamp and the stream name; any other job leaves both tables alone |
| StreamLoop.Poller.StartDue | stream.py:126-137 | exactly the jobs with start < now < end move, each with a new capture; every other job stays |
| StreamLoop.Poller.StopExpired | stream.py:139-145 | exactly the captures with now > end are stopped and dropped |
| StreamLoop.Poller.Step | stream.py:124-145 | one turn: due jobs start, expired captures stop, a job started in the turn is not stopped in it, and a job already past its end stays pending for ever |
| StreamRef.EndTime | stream_ref.py:141-166 | the end is the later of `end` and start plus duration, whichever is given, and none when neither is; an end before the start is kept |
| StreamRef.ParseSchedule | stream_ref.py:125-187 | the loop returns `Parsed`: entries fold into the table by key, or the parse stops at an unknown channel |
| StreamRef.ParsedFailsAtFirstUnknown | stream_ref.py:159-173 | parsing fails exactly when a kept entry names an unknown channel, and it reports the first one |
| StreamRef.FailureSticks | stream_ref.py:173 | once the channel lookup fails, later entries change nothing |
| StreamRef.ParsedCoversKept | stream_ref.py:173-185 | the table holds a recording under the key of every kept entry |
| StreamRef.ParsedFromLastEntry | stream_ref.py:174-185 | each recording comes from the last kept entry with its key, and its sid is that entry's position |
| StreamRef.ParsedSidsDistinct | stream_ref.py:176-185 | no two parsed recordings share a schedule id |
| StreamRef.StemsAgreeWithoutSpaces | stream_ref.py:199-204 | the as-written and corrected stems agree exactly when the programme has no space |
| StreamRef.ProgrammeSpacesKept | stream_ref.py:201 | for "Late News" the as-written stem has a space and the corrected one does not |
| StreamRef.TSStemHasNoSpace | stream_ref.py:196-204 | with the replacement applied, a space can only come from the stamp or the channel |
| StreamRef.InitialiseTS | stream_ref.py:190-214 | the name is not in the directory and is the first free one for the stamp, the channel and the underscored programme |
| StreamRefLoop.SidIndex | stream_ref.py:246-256 | the index maps every schedule id present to a key that has it |
| StreamRefLoop.SidIndexDomain | stream_ref.py:246-256 | the index holds exactly the schedule ids of its table |
| StreamRefLoop.ReviseOne | stream_ref.py:262-318 | one revised recording only changes a matching running end, or inserts itself under its key, and counts as new exactly when its sid was not upcoming |
| StreamRefLoop.Revise | stream_ref.py:262-318 | the pass over the revised table keeps the keys of the running recordings |
| StreamRefLoop.ReviseRunningEnds | stream_ref.py:268-291 | running keys are kept, only ends change, and a changed end comes from a revised recording with the same sid, channel and programme |
| StreamRefLoop.ReviseUpcomingSources | stream_ref.py:294-318 | every upcoming recording afterwards is an old one or a revised one that is not running and not over |
| StreamRefLoop.ReviseKeepsUntouched | stream_ref.py:294-318 | an upcoming recording stays as it was while no revised recording that is not running and not over has its key or a sid leading to it; revised recordings that are over or running are ignored |
| StreamRefLoop.ReviseLeavesAlone | stream_ref.py:296-300 | with the checked removal, a recording stays while no revised entry has its key or sid |
| StreamRefLoop.ReviseInsertsEligible | stream_ref.py:294-318 | with the checked removal and distinct sids, every revised recording not running and not over ends up upcoming |
| StreamRefLoop.ReviseKeepsRevised | stream_ref.py:294-318 | once a key is free or holds its own revised recording that is not running and not over, the rest of the pass keeps it so |
| StreamRefLoop.ReviseReplaces | stream_ref.py:294-300 | the upcoming recording under the key indexed for sid s is gone once a revised recording with sid s that is not running and not over is reached, unless its key then holds its own revised recording |
| StreamRefLoop.ReviseSkipsRunning | stream_ref.py:267-291 | a running recording whose sid no revised recording of the pass carries is unchanged |
| StreamRefLoop.ReviseAppliesEnd | stream_ref.py:267-291 | with distinct sids along the pass, a revised recording whose sid leads to a running recording with the same channel and programme leaves its end as that recording's end |
| StreamRefLoop.ReviseCountsNew | stream_ref.py:313-316 | the count goes up once per new revised recording |
| StreamRefLoop.NewInMembers | stream_ref.py:313-316 | the new keys are exactly the visited keys of new revised recordings |
| StreamRefLoop.NewCountIsSize | stream_ref.py:313-316 | when each key is visited once, the count equals the number of new keys |
| StreamRefLoop.OrderTail | stream_ref.py:262 | the rest of a dictionary iteration visits the remaining keys once |
| StreamRefLoop.ReloadDropsShiftedRecording | stream_ref.py:296-300 | as written, a valid index and a still-to-come revised K1 are lost when K0 removes the key K1 |
| StreamRefLoop.CheckedReloadKeepsShiftedRecording | stream_ref.py:296-318 | on the same input the checked removal keeps all three revised recordings |
| StreamRefLoop.ReloadEnds | stream_ref.py:267-291 | for any iteration order, the running recordings keep their keys and change ends only to a matching revised end; with distinct revised and running sids, every matching revised recording does set the end |
| StreamRefLoop.ReloadUpcoming | stream_ref.py:294-318 | for any order, an upcoming recording is an old one or a revised one still to come |
| StreamRefLoop.ReloadReplaces | stream_ref.py:294-300 | for any order and distinct upcoming sids, an upcoming recording whose sid a revised recording still to come carries is gone afterwards, unless its key holds its own revised recording still to come |
| StreamRefLoop.ReloadKeeps | stream_ref.py:294-318 | for any order, an upcoming recording stays as it was when no revised recording still to come has its key or its sid, so a revised entry that is over or running leaves the upcoming table alone |
| StreamRefLoop.ReloadInserts | stream_ref.py:294-318 | with distinct sids, every revised recording still to come is upcoming afterwards |
| StreamRefLoop.ReloadCount | stream_ref.py:257-316 | the count is the number of revised recordings still to come whose sid was not upcoming |
| StreamRefLoop.ReloadKeepsPromises | stream_ref.py:240-323 | the pass with the checked removal meets all of the above at once: ends revised and applied, sources, replacement, untouched recordings kept, insertion and count |
| StreamRefLoop.Scheduler.constructor | stream_ref.py:327-328 | the parsed table is pending and nothing runs |
| StreamRefLoop.Scheduler.StopExpired | stream_ref.py:335-351 | exactly the captures with now > end are stopped and dropped, and nothing else changes |
| StreamRefLoop.Scheduler.StartRecording | stream_ref.py:364-381 | a recording gets a new handle and, as its file, the first name not in the directory for the stamp of its start, its channel and its programme with spaces turned into underscores |
| StreamRefLoop.Scheduler.StartOrMissOne | stream_ref.py:356-396 | a recording not running with its start passed leaves the table; it is captured only when its end has not come |
| StreamRefLoop.Scheduler.StartOrMiss | stream_ref.py:354-396 | exactly those recordings leave the table; exactly those with start < now < end get a new capture |
| StreamRefLoop.Scheduler.Step | stream_ref.py:331-396 | one turn, stated against the state before it: expired captures stop, every started capture is fresh, and the rest stays as it was |
| StreamRefLoop.Scheduler.ReloadOne | stream_ref.py:262-318 | one revised recording updates the tables as `ReviseOne` says, with the checked removal |
| StreamRefLoop.Scheduler.ReloadPass | stream_ref.py:261-318 | the loop produces `Revise` of the old tables |
| StreamRefLoop.Scheduler.ReloadSchedule | stream_ref.py:240-323 | the reload is `Revise` for its own sid index; running ends change only to, and (with distinct sids) always to, a matching revised end; upcoming recordings are old or revised and still to come; one whose sid a revised recording still to come carries is replaced; unmentioned ones stay; with distinct sids everything still to come is inserted; the count is that of the new recordings |

## Left out

- Capture by VLC (`start_record`, `stop_record`, `recordStream`, `play`, `stop`, `release`): the engine is the class `Capture.Recorder`, which hands out numbered handles. It assumes the output file appears in the directory when a capture starts.
- An exception raised while stopping a capture is not modelled: stopping always succeeds. In `stream_ref.py` (lines 344-351) the script catches such an exception and drops the handle anyway, as the model does. In `stream.py` `stop_record` (line 144) has no `try`, so there an exception ends the program before the `pop` at line 145.
- Loading JSON configuration and schedule files, argparse, logging to the screen and to log files: this is I/O. The channel list and the schedule entries are inputs. The reload takes the revised table as an input; `ParseSchedule` models how it is built.
- `datetime.now`, `strptime`, `strftime` and placing the template's times on today's date: times are integers in seconds. Stamps are strings given as input (`stamp: int -> string` in `stream_ref.py`, which names a file after the recording's start).
- In `stream.py`, `generate_outfile` reads the clock for each file. The model uses one stamp per turn. Under the assumption above that a capture's file appears in the directory when it starts, the name search then gives distinct names. In the program VLC opens the file only after `play()` has returned, so two captures started in the same second for one stream name can get the same name; the model does not capture that.
- `os.listdir` and `os.path.join`: the listing is a set of names, and the result is the bare file name without the directory.
- The outer loops with `time.sleep`, the `getch` key polling and the quit key are left out. Each model covers one turn, plus the reload that the `r` key triggers. The unused `busy = k > 0` is also left out.
- Stream.CreateSchedule: requires `duration + pause > 0` only when the clipped first start is before the end bound, because the source loop then never ends; when the first start is at or past the end the loop does not run, the schedule is empty and `main` exits with "no schedule". The `Poller` constructor takes the same condition.
- Iterating over a dictionary: `Dict.Choose` picks any remaining key of the snapshot. Which jobs start and which captures stop in a poll turn does not depend on the order; the file name and the handle number each job gets can, when two due jobs share a stem. The reload's result does, so the order is an explicit parameter, `order`.
- The reload's log-only comparisons, and the `None` case of `existing.pop(s, None)`, are not modelled. That case can only arise when two revised recordings share a schedule id, which the parser rules out (`ParsedSidsDistinct`).
- In `stream_ref.py` the channel is put into the file name with its spaces. Only the programme's spaces are meant to be replaced, and the model keeps it that way.
- The loop model of `stream_ref.py` (`StreamRefLoop.Scheduler.StartRecording`) names files with the corrected stem, the programme's spaces turned into underscores (see the first row of "Findings"), not with the stem line 201 builds as written.
- StreamRefLoop.Scheduler.ReloadOne, StreamRefLoop.Scheduler.ReloadPass and StreamRefLoop.Scheduler.ReloadSchedule use the checked removal: the key indexed for a schedule id is removed only while it still holds a recording with that schedule id. The removal as written at `stream_ref.py` lines 296-300 is modelled by `ReviseOne` with the removal unchecked (see the second row of "Findings").
- StreamRefLoop.Scheduler.ReloadSchedule: the replacement of an upcoming recording is stated for upcoming tables with distinct schedule ids, and the setting of a matching running end for revised and running tables with distinct schedule ids; with a shared schedule id the index leads to only one of the recordings that hold it.
- StreamRefLoop.Scheduler.ReloadSchedule: the fact that every revised recording still to come becomes upcoming is stated only for tables with distinct schedule ids, the only tables the parser produces.

## Findings

| source | as written | input that shows it | evidently intended | confidence | as-written member | corrected member |
|---|---|---|---|---|---|---|
| stream_ref.py:201 | `programme.replace(' ', '_')` discards its result, so the programme's spaces reach the file name | programme "Late News" gives a stem ending in `_Late News` | the spaces become underscores, as the comment beside the call says | high, not executed | StreamRef.ProgrammeSpacesKept | StreamRef.InitialiseTS |
| stream_ref.py:296-300 | the reload removes the key found for a schedule id before the reload, even when another revised recording has since been stored under that key | upcoming K1 (sid 0) and K2 (sid 1); revised K0, K1, K2 with sids 0, 1, 2; visiting K1, K2, K0 loses the revised K1 | remove the old recording only while the key still holds that schedule id, so every recording still to come is kept | medium (depends on dictionary order), not executed | StreamRefLoop.ReloadDropsShiftedRecording | StreamRefLoop.Scheduler.ReloadSchedule |
