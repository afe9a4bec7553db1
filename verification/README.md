# Verification of the SteamOS log submitter

This project models the stateful protocols, the line automata and the printers and parsers of the SteamOS log
submitter in Dafny, and proves what they keep over every run or every input. Code that changes fields, files
or dictionaries step by step is modelled by classes and methods with loops. Each such method is proved against
a specification function, and the theorems are about that function. `dafny verify dfyconfig.toml` checks
everything.

## The parts

**The daemon** (`DaemonSchedule`, `Daemon`, `DaemonSafety`, `DaemonRuns`, `DaemonLimits`, `DaemonRaces`,
`DaemonEffects`). A task is a coroutine
stack suspended at one of the awaits of `daemon.py`. One event runs the code between two awaits of one task.
The environment chooses which task runs, whether its await ends normally, with a cancellation or with an
exception, whether the configuration can be written, and how time passes. Any await may be cancelled, so
cancellations that asyncio passes on from a task to the one it awaits are included. `start` is called once in a
process, before the D-Bus methods are exported, so `__init__` and `start` up to line 145 are one step, which a
restart repeats with the saved `last_trigger`. Every successful write of the configuration saves all that is in
memory, also one by another part of the program. At most one `_trigger` body is between taking and releasing the
flag, in every interleaving.

Queued and running bodies never exceed one, unless `shutdown` clears `_async_trigger` while it names a newer,
queued trigger and the flag is free (`LosesTrigger`). Periodic runs begin at least INTERVAL after every run
completed before them, unless a run of a serving daemon completes, and gives the flag back, beside a stray: a
periodic task that is not the handle, was not cancelled, and is updating the application list or will wake up
within INTERVAL (`Crowds`). Both conditions can be checked before the event, and both are exact: an event violates
its condition if and only if it can be followed, without any other violation, by two coroutines or by a periodic
run that is too early. That no run completes while `_cancel_periodic` is suspended is not enough:
`ReschedulingRace` is such a run, with two wake-ups from suspend, in which a periodic run begins at the moment
another ends.

**The lock and the life of a log** (`LockProtocol`, `Lockfile`, `LogLifecycle`, `LogEffects`,
`Runner`). The world has one
lock path, with its inode and text, and the descriptors that `/proc` shows for each process. `lock` and `unlock`
do not await and are one step each. A process may die anywhere, also between creating the file and writing it.
Contenders can stat each other's `/proc` entries. On top of the lock, calls of `submit_category`,
`collect_category` and `send_report` of one helper interleave at their awaits. Files are numbered, so a name
that is used again is another file. OK is answered only for a file that existed when it was submitted, a new
log never has the name of a pending one, and report ids are new.

**The journal** (`JournalCollection`, `JournalHelper`, `JournalNames`). An entry is known by its index in a
growing journal. A round is what one `collect` does about one unit, and rounds do not overlap. File operations
may fail and files may be submitted between the rounds. Unit names become file names through their UTF-8 bytes
(RFC 3629, section 3) and are read back from the path of the file.

**The watermark** (`Watermark`). Times are the rounded ones, in milliseconds.

**The configuration** (`ConfigFiles`, `Migration`, `Config`). A parsed file is its `[DEFAULT]` section and the
other sections. Option names are in lower case already, values are not interpolated, and a file that is written
reads back as the parser it was written from. Upgrading keeps every lookup if and only if each migration finds
a state in which it is harmless, a condition on the contents of the three files. It always holds without
`[DEFAULT]` sections in the user and local files. `UserDefaultWins` and `LocalDefaultWins` show the two ways it
can fail.

**Kernel traces** (`Kdump`). A line is what the regular expressions find in it. The parser is proved against a
specification by segments, and the pruning loop against run compression.

**Printers and parsers** (`MatchRule`, `Signature`, `CaseNames`, `Environ`, `Envelope`). D-Bus match rules
(section "Match Rules" of the D-Bus Specification) are parsed back from any quoting. Type signatures (section
"Type System") have a decoder that is their inverse on both sides. Helper names survive camel case exactly when
all their word boundaries do. Characters are ASCII in `CaseNames` and in the escapes that are read in
`JournalNames`. The JSON texts of an envelope are a parameter: an encoding that is injective and has no newlines.

## Model

| member | source | states |
|---|---|---|
| `Daemon.Daemon.constructor` | steamos_log_submitter/daemon.py:130-145 | after `__init__` and the beginning of `start` the next trigger is STARTUP away or INTERVAL after the saved run, whichever is later, and a periodic task exists unless inhibited or disabled |
| `Daemon.Daemon.Step` | steamos_log_submitter/daemon.py:65-272 | the code run between two awaits changes the fields exactly as the transition function of the theorems says, for every event and every way an await can end |
| `Daemon.Daemon.CancelPeriodic` | steamos_log_submitter/daemon.py:89-97 | the handle is cancelled and awaited, and cleared only after the await ended normally or by cancellation |
| `Daemon.Daemon.UpdateSchedule` | steamos_log_submitter/daemon.py:267-272 | blocked: the periodic task is cancelled; otherwise one is created only if there is no handle |
| `Daemon.Daemon.TriggerBody` | steamos_log_submitter/daemon.py:191-199 | `_trigger` takes the flag only if it is free and triggers are allowed, and otherwise only clears `_async_trigger` |
| `Daemon.Daemon.Handover` | steamos_log_submitter/daemon.py:200-208 | a completed run saves its time, and a new periodic task replaces the old one, which is cancelled |
| `Daemon.Daemon.RunDone` | steamos_log_submitter/daemon.py:199-214 | the flag is released only after the replaced task is over; a failing write of the configuration ends the run with the flag kept |
| `Daemon.Daemon.Trigger` | steamos_log_submitter/daemon.py:216-237 | a call returns, joins the running or queued trigger, runs the body itself, or queues it, by the state of the flag and of `_async_trigger` |
| `Daemon.Daemon.PeriodicBody` | steamos_log_submitter/daemon.py:65-70 | the periodic task sleeps until the next trigger is due, and goes on at once if it is |
| `Daemon.Daemon.Woken` | steamos_log_submitter/daemon.py:72-81 | the application list is updated first if the last update is APPLIST_UPDATE_INTERVAL ago or unknown |
| `Daemon.Daemon.Listed` | steamos_log_submitter/daemon.py:82-84 | the time of the update is kept in memory and written; a failing write ends the task |
| `Daemon.Daemon.Poll` | steamos_log_submitter/daemon.py:85-87 | the periodic task triggers only while serving |
| `Daemon.Daemon.SetFlag` | steamos_log_submitter/daemon.py:242-263 | enabling and inhibiting wait for an async trigger only in the direction that blocks, then store the flag and update the schedule |
| `Daemon.Daemon.LeaveSuspend` | steamos_log_submitter/daemon.py:116-127 | only a change to inactive while no trigger is active delays and reschedules |
| `Daemon.Daemon.Shutdown` | steamos_log_submitter/daemon.py:164-170 | serving stops, the async trigger is awaited and cleared, and then the periodic task is cancelled |
| `DaemonSchedule.CancelCommutes` | steamos_log_submitter/daemon.py:203-208 | creating the new periodic task before cancelling the old one has the same effect as after it |
| `DaemonSchedule.HandoverInOrder` | steamos_log_submitter/daemon.py:200-208 | so the handover of the specification is what the statements do in their order |
| `DaemonRuns.StepSafe` | steamos_log_submitter/daemon.py:65-272 | every event the hypotheses admit keeps the invariants on the flag, the coroutines and the times |
| `DaemonRuns.RunSafe` | steamos_log_submitter/daemon.py:65-272 | so they hold in every state of every admitted run |
| `DaemonRuns.AtMostOneRun` | steamos_log_submitter/daemon.py:191-214 | in every interleaving at most one `_trigger` body is between taking and releasing the flag, and the flag is set throughout |
| `DaemonRuns.OneCoroutine` | steamos_log_submitter/daemon.py:164-237 | in every run, shutdowns included, in which no event loses a queued trigger, queued and running `_trigger` coroutines never exceed one |
| `DaemonRuns.CallsCoalesce` | steamos_log_submitter/daemon.py:216-237 | in such runs a call that arrives while one is queued or running starts no other and does not end it |
| `DaemonRuns.PeriodicRunsAreSpaced` | steamos_log_submitter/daemon.py:65-97 | in every run in which no run completes beside a stray, each periodic run begins at least INTERVAL after every run completed before it, also across restarts |
| `DaemonLimits.LosingMakesTwo` | steamos_log_submitter/daemon.py:167-169 | after any event that loses a queued trigger, calls alone lead to two queued ones |
| `DaemonLimits.CoalescingFailsExactly` | steamos_log_submitter/daemon.py:164-237 | an event loses a queued trigger if and only if it can be followed, without another such event, by two `_trigger` coroutines at once |
| `DaemonLimits.CrowdingBreaksSpacing` | steamos_log_submitter/daemon.py:199-214 | after any run that completes beside a stray, the stray can begin one that is too early |
| `DaemonLimits.SpacingFailsExactly` | steamos_log_submitter/daemon.py:65-97 | an event completes a run beside a stray if and only if it can be followed, without another such event, by a periodic run that begins too early |
| `DaemonRaces.ReschedulingRace` | steamos_log_submitter/daemon.py:89-128 | a run in which no run completes during a cancellation, and yet a periodic run begins when another has just ended |
| `DaemonRaces.ShutdownRace` | steamos_log_submitter/daemon.py:164-170 | a run with a shutdown in which two `_trigger` coroutines are queued at once |
| `DaemonEffects.Boots` | steamos_log_submitter/daemon.py:137-145 | the first trigger is exactly the later of 20 seconds from now and an hour after the saved run, and there is one periodic task if triggers are allowed, else none |
| `DaemonEffects.FlagTakesEffect` | steamos_log_submitter/daemon.py:242-249 | a changed flag is stored and written; if triggers are allowed then, the handle stays or names a fresh periodic task, and if not, the handle is told to stop, waited for and cleared |
| `DaemonEffects.FlagWaits` | steamos_log_submitter/daemon.py:245-246 | forbidding triggers waits for an unfinished async trigger and changes nothing before |
| `DaemonEffects.FlagTakesEffectLater` | steamos_log_submitter/daemon.py:245-249 | and then takes effect in the same way |
| `DaemonEffects.FlagWithoutEffect` | steamos_log_submitter/daemon.py:243-248 | a flag that has the value already, or cannot be written, leaves the schedule alone |
| `DaemonEffects.SuspendStarts` | steamos_log_submitter/daemon.py:116-126 | a ten second delay starts exactly on a change to inactive while no trigger is active |
| `DaemonEffects.SuspendReschedules` | steamos_log_submitter/daemon.py:126-128 | after it the periodic task is told to stop and waited for, or replaced at once if it is over |
| `DaemonEffects.CancelWaitEnds` | steamos_log_submitter/daemon.py:93-97 | whoever waited for the cancelled task clears the handle, and names a fresh periodic task if a reschedule was wanted and is allowed |
| `DaemonEffects.ShutdownStops` | steamos_log_submitter/daemon.py:164-170 | without an async trigger left, shutting down stops serving and cancels the periodic task |
| `DaemonEffects.ShutdownWaits` | steamos_log_submitter/daemon.py:166-168 | otherwise it waits for it, or ends with its error |
| `DaemonEffects.ShutdownGoesOn` | steamos_log_submitter/daemon.py:168-170 | and then forgets it and cancels the periodic task |
| `DaemonEffects.CallTriggers` | steamos_log_submitter/daemon.py:216-237 | a call does nothing if triggers are not allowed, joins what the flag and `_async_trigger` name, begins a run if it waits, and else queues one |
| `DaemonEffects.QueuedBegins` | steamos_log_submitter/daemon.py:191-199 | a queued trigger begins its run exactly when triggers are allowed and the flag is free |
| `DaemonEffects.PeriodicGoesOn` | steamos_log_submitter/daemon.py:65-87 | a periodic task sleeps until the next trigger, updates a list that is a day old, or triggers while serving |
| `DaemonEffects.ListGoesOn` | steamos_log_submitter/daemon.py:81-87 | after the update its time is kept and written, and the task goes on to trigger |
| `DaemonEffects.ListFailsToWrite` | steamos_log_submitter/daemon.py:81-83 | if it cannot be written it is kept in memory and the task ends |
| `DaemonEffects.RunCompletes` | steamos_log_submitter/daemon.py:199-214 | a completed run is saved, sets the next trigger an hour from now, installs a fresh periodic task while serving, tells the old one to stop, and gives the flag back or waits first |
| `DaemonEffects.ReplacedReleases` | steamos_log_submitter/daemon.py:209-214 | when the replaced task is over the flag is free and `_async_trigger` cleared |
| `DaemonEffects.RunFailsToWrite` | steamos_log_submitter/daemon.py:199-202 | a run that cannot be written ends its task with the flag taken |
| `DaemonEffects.ExceptionEnds` | steamos_log_submitter/daemon.py:65-272 | any other cancellation or exception ends its task and changes nothing else |
| `DaemonEffects.SavesAndRestarts` | steamos_log_submitter/config.py:119-123 | any write saves all that is in memory, and a restart begins with what was saved |
| `Lockfile.Machine.Lock` | steamos_log_submitter/lockfile.py:29-75 | opening, testing and taking over the file step by step refuses or acquires as the protocol says, keeps the invariant, and leaves the caller holding unless refused |
| `Lockfile.Machine.Unlock` | steamos_log_submitter/lockfile.py:77-84 | unlocking a held lock removes the path and leaves no holder; otherwise nothing changes and an error is raised |
| `Lockfile.Machine.Enter` | steamos_log_submitter/lockfile.py:93-100 | with at least one attempt, entering returns normally exactly when the lock is held afterwards, and fails only after all attempts were refused, while another object holds it |
| `LockProtocol.ClaimedIffHeld` | steamos_log_submitter/lockfile.py:59-67 | the staleness test is exact: the file is claimed if and only if some object holds the lock |
| `LockProtocol.CrashInLockSafe` | steamos_log_submitter/lockfile.py:70-74 | dying between opening the file and writing to it keeps the invariant |
| `LockProtocol.StepSafe` | steamos_log_submitter/lockfile.py:29-84 | locking, unlocking, crashes and other files opened under any numbers keep the invariant |
| `LockProtocol.RunSafe` | steamos_log_submitter/lockfile.py:29-84 | so it holds in every state of every run |
| `LockProtocol.MutualExclusion` | steamos_log_submitter/lockfile.py:59-75 | at most one object holds the lock; the path leads to its open inode and the content names it |
| `LockProtocol.LockSucceedsIffFree` | steamos_log_submitter/lockfile.py:29-75 | after any history `lock` raises if and only if another object holds the lock, changing nothing, and otherwise ends in holding it, with one descriptor more, on the file that was there if there was one |
| `LockProtocol.CrashRecovery` | steamos_log_submitter/lockfile.py:61-70 | once the process of the holder is dead the next `lock` of anybody succeeds |
| `LockProtocol.UnlockFrees` | steamos_log_submitter/lockfile.py:77-83 | after the holder's `unlock` the path is gone, its descriptor closed, and any `lock` succeeds |
| `Runner.Helper.SkipHidden` | steamos_log_submitter/runner.py:63-65 | names that start with a dot are skipped |
| `Runner.Helper.Settle` | steamos_log_submitter/runner.py:68-81 | a log is moved to `uploaded` after OK and to `failed` after PERMANENT_ERROR, if os.replace works, and stays otherwise |
| `Runner.Helper.Resume` | steamos_log_submitter/runner.py:68-87 | an answer of `submit` is settled and then the call goes on, ends after CLASS_ERROR or a cancellation, or finishes its report |
| `Runner.Helper.SubmitCategory` | steamos_log_submitter/runner.py:59-68 | a call that finds the lock held does nothing; otherwise it takes it and submits the first visible log |
| `Runner.Helper.SendReport` | steamos_log_submitter/helpers/sysreport.py:62-76 | the report is copied into `pending` and submitted; when the lock is held it is moved to `failed` at once |
| `Runner.Helper.ReportDone` | steamos_log_submitter/helpers/sysreport.py:71-83 | without OK the report is moved to `failed` and no id is returned |
| `LogLifecycle.SettledSafe` | steamos_log_submitter/runner.py:68-81 | settling any result keeps every file accounted for |
| `LogLifecycle.StepSafe` | steamos_log_submitter/runner.py:59-87 | every event keeps files conserved, uploads accounted, the lock exclusive and reports answered |
| `LogLifecycle.RunSafe` | steamos_log_submitter/runner.py:59-87 | so they hold in every state of every run |
| `LogLifecycle.FilesAreConserved` | steamos_log_submitter/runner.py:59-87 | every file that arrived is in `pending` under one name or has exactly one fate |
| `LogLifecycle.LeavesPendingOnly` | steamos_log_submitter/runner.py:70-76 | a file leaves `pending` only for `uploaded` after OK, or for `failed` after PERMANENT_ERROR or an unsuccessful `send_report` |
| `LogLifecycle.UploadsAreAccounted` | steamos_log_submitter/runner.py:70-72 | every OK moves its file to `uploaded` once or meets a failing os.replace; with working moves no file is accepted twice |
| `LogLifecycle.ReportsAreAnswered` | steamos_log_submitter/helpers/sysreport.py:61-83 | `send_report` returns its id only for an uploaded report, and with working moves any other report is in `failed` |
| `LogLifecycle.FailuresAreExplained` | steamos_log_submitter/helpers/sysreport.py:74-77 | a file in `failed` without PERMANENT_ERROR belongs to an unsuccessful `send_report` |
| `LogLifecycle.ClassErrorEndsTheCall` | steamos_log_submitter/runner.py:77-78 | CLASS_ERROR moves nothing, and the call submits nothing in the rest of the run |
| `LogEffects.SubmitStarts` | steamos_log_submitter/runner.py:59-68 | a call that finds the lock free takes it and submits the first of its logs that is not hidden; otherwise it does nothing |
| `LogEffects.SubmitGoesOn` | steamos_log_submitter/runner.py:63-81 | after any answer but CLASS_ERROR, an exception included, the next log that is not hidden is submitted, or the lock released |
| `LogEffects.CallEnds` | steamos_log_submitter/runner.py:77-87 | CLASS_ERROR, a cancellation and the end of a report release the lock and end the call |
| `LogEffects.PermanentErrorFails` | steamos_log_submitter/runner.py:75-76 | after PERMANENT_ERROR a file that can be moved is in `failed`, for good |
| `LogEffects.OkUploads` | steamos_log_submitter/runner.py:70-72 | after OK a file that can be moved is in `uploaded`, and counts as accepted once more |
| `LogEffects.OthersStay` | steamos_log_submitter/runner.py:68-81 | after any other answer, or when os.replace fails, no file moves |
| `LogEffects.ReportStarts` | steamos_log_submitter/helpers/sysreport.py:66-71 | a report is put into `pending` as a new file and submitted under the lock |
| `LogEffects.ReportGivesUp` | steamos_log_submitter/helpers/sysreport.py:69-79 | when the lock is held the report is moved to `failed`, if that works, and not sent |
| `LogEffects.ReportEnds` | steamos_log_submitter/helpers/sysreport.py:71-83 | the id is returned exactly after OK and a working move; otherwise the report is in `failed` if one of the moves works, and else still in `pending` |
| `LogEffects.CollectHoldsLock` | steamos_log_submitter/runner.py:19-29 | collecting holds the lock from beginning to end, and does nothing when it is held |
| `JournalCollection.MatchIs` | steamos_log_submitter/helpers/journal.py:68-76 | an entry belongs to the unit by the field of its scope, and is filed under the id of its scope, or under `_SYSTEMD_INVOCATION_ID` if that is missing or blank |
| `JournalCollection.BatchIs` | steamos_log_submitter/helpers/journal.py:61-86 | a batch has exactly the entries of the unit and the invocation, in journal order |
| `JournalCollection.CursorIs` | steamos_log_submitter/util.py:287-309 | the cursor stands at the last line printed: any line in the user scope, the lines of the unit in the system scope |
| `JournalCollection.RoundMovesCursor` | steamos_log_submitter/helpers/journal.py:172-200 | a round without a new entry of a failed invocation changes nothing; any other moves the cursor there |
| `JournalCollection.FileAfterRound` | steamos_log_submitter/helpers/journal.py:178-199 | a file keeps its entries and gets the new ones behind them, starts afresh when it was corrupt, is left when it cannot be read or opened, and spoilt when it cannot be written |
| `JournalCollection.PassedByRound` | steamos_log_submitter/helpers/journal.py:172-200 | what counts as collected for an entry is what the round whose cursor passed it collected without a file error |
| `JournalCollection.BatchSplits` | steamos_log_submitter/helpers/journal.py:67-86 | filtering and grouping distribute over concatenation |
| `JournalCollection.NothingAfterLastShown` | steamos_log_submitter/util.py:287-309 | no line of the unit lies after the cursor that is returned |
| `JournalCollection.RoundCollected` | steamos_log_submitter/helpers/journal.py:161-200 | moving the cursor over a round collects exactly the new entries of the invocations whose files it could access, and nothing for other units |
| `JournalCollection.StepSafe` | steamos_log_submitter/helpers/journal.py:147-200 | rounds, new entries and submitted files keep the ledger equal to what the rounds collected |
| `JournalCollection.RunSafe` | steamos_log_submitter/helpers/journal.py:147-200 | so in every state of every run |
| `JournalCollection.CollectedExactly` | steamos_log_submitter/helpers/journal.py:161-200 | by the fields of the entry: it was appended for an invocation if and only if it is of the unit, is filed under that invocation, and the round that passed it collected that invocation and could access its file |
| `JournalCollection.NoEntryTwice` | steamos_log_submitter/helpers/journal.py:161-200 | whatever fails and whatever is submitted in between, no entry of a unit is appended twice, and entries are appended in strictly increasing journal order |
| `JournalCollection.FilesHoldTheLedger` | steamos_log_submitter/helpers/journal.py:179-199 | a pending file holds the latest part of what was appended for its invocation |
| `JournalCollection.NothingLeft` | steamos_log_submitter/helpers/journal.py:172-176 | after a round nothing in the journal is left for the invocations it collected, also when the cursor was held back |
| `JournalCollection.IncrementalEqualsBatch` | steamos_log_submitter/helpers/journal.py:161-200 | with the same failed invocations each round and no failing file operation, the accumulated entries are those of one pass over the whole journal |
| `JournalCollection.FilesAreWhole` | steamos_log_submitter/helpers/journal.py:179-199 | and, if nothing was submitted, so is the content of the file |
| `JournalHelper.KeptLinesAre` | steamos_log_submitter/util.py:300-304 | the lines kept are exactly those whose unit field of the scope names the unit, in journal order |
| `JournalHelper.SelectKept` | steamos_log_submitter/helpers/journal.py:63-84 | filtering by unit and then grouping by invocation is the one-pass batch |
| `JournalHelper.Collector.ReadLines` | steamos_log_submitter/util.py:287-309 | the loop keeps exactly the lines whose unit field of the scope names the unit, and returns the last line shown as the cursor, none if no line was shown |
| `JournalHelper.Collector.ReadJournal` | steamos_log_submitter/helpers/journal.py:61-86 | the result has exactly the failed invocations with new entries, each with its batch |
| `JournalHelper.Collector.AppendToFile` | steamos_log_submitter/helpers/journal.py:178-199 | a file gets the new entries after its old ones, starts afresh when it is corrupt, and loses them when it cannot be read or written |
| `JournalHelper.Collector.CollectUnit` | steamos_log_submitter/helpers/journal.py:161-200 | one unit changes files and cursor as the round of the theorems; without a match the cursor is held back |
| `JournalNames.EncodeInjective` | steamos_log_submitter/helpers/journal.py:124 | different names have different UTF-8 bytes |
| `JournalNames.UnescapeName` | steamos_log_submitter/helpers/journal.py:128-145 | the loop with its pending escape is the recursive reading of escapes; malformed and cut off ones are dropped |
| `JournalNames.EscapeRoundTrip` | steamos_log_submitter/helpers/journal.py:120-145 | unescaping an escaped name gives its UTF-8 bytes as characters, space-padded escapes included |
| `JournalNames.LettersKept` | steamos_log_submitter/helpers/journal.py:122-125 | letters and digits are not escaped |
| `JournalNames.EscapeIs` | steamos_log_submitter/helpers/journal.py:125 | any other byte is an underscore and two columns of lower case hexadecimal, padded with a space |
| `JournalNames.EscapeRead` | steamos_log_submitter/helpers/journal.py:138-144 | what follows an underscore is read as the number int() finds in it, with its white space and signs, and dropped if there is none |
| `JournalNames.DigitValueIs` | steamos_log_submitter/helpers/journal.py:141 | digits are hexadecimal, in either case |
| `JournalNames.SpaceIs` | steamos_log_submitter/helpers/journal.py:141 | and the white space is that of int() |
| `JournalNames.AsciiRoundTrip` | steamos_log_submitter/helpers/journal.py:120-145 | an ASCII name comes back as it was |
| `JournalNames.EscapeInjective` | steamos_log_submitter/helpers/journal.py:120-125 | different names are escaped differently |
| `JournalNames.NameParts` | steamos_log_submitter/helpers/journal.py:216-228 | removing the extension and splitting at the last space gives the escaped unit, although it may have spaces itself |
| `JournalNames.FileNameInjective` | steamos_log_submitter/helpers/journal.py:165-181 | for invocations without spaces, file names determine scope, unit and invocation |
| `JournalNames.ScopesNeverCollide` | steamos_log_submitter/helpers/journal.py:165-168 | no file of a user unit is one of a system unit, whatever the invocations are |
| `JournalNames.UnitIsReadBack` | steamos_log_submitter/helpers/journal.py:216-229 | from the path of a file `submit` recovers the unit, with `user.` before it in the user scope |
| `Watermark.Helper.Collect` | steamos_log_submitter/helpers/__init__.py:180-212 | one call returns the newer logs in listing order and raises the watermark to the latest time read; if it cannot be written the call raises and keeps it in memory |
| `Watermark.NewerIs` | steamos_log_submitter/helpers/__init__.py:191-199 | a log is returned if and only if it is listed, can be read and is newer than the old watermark |
| `Watermark.CollectIs` | steamos_log_submitter/helpers/__init__.py:191-212 | of one call: exactly the readable files above the watermark are returned, and none if the watermark cannot be written |
| `Watermark.LatestIs` | steamos_log_submitter/helpers/__init__.py:200-203 | the new watermark is not below the old one nor any time read, and is one of these |
| `Watermark.StepSafe` | steamos_log_submitter/helpers/__init__.py:180-212 | directory changes and calls keep all that was returned at or below the watermark and returned once |
| `Watermark.MarkIsMonotone` | steamos_log_submitter/helpers/__init__.py:202-204 | the watermark never decreases over a run |
| `Watermark.NothingTwice` | steamos_log_submitter/helpers/__init__.py:180-212 | whatever happens to the directory, no log is returned twice with the same time |
| `Watermark.ExactlyOnce` | steamos_log_submitter/helpers/__init__.py:180-212 | if files arrive above the watermark and can be read, each file pending at a call has been returned exactly once after it |
| `Watermark.MissedForever` | steamos_log_submitter/helpers/__init__.py:198-199 | a log at or below the watermark that was not returned never is |
| `ConfigFiles.MergedValue` | steamos_log_submitter/config.py:76-104 | what a file says in a section wins over what was read before, which wins over the defaults of the file and then those before |
| `ConfigFiles.ValueIs` | steamos_log_submitter/config.py:36-43 | a section has an option of its own or by default, and a missing section has none |
| `ConfigFiles.StepLookup` | steamos_log_submitter/config.py:139-148 | moving one key changes no lookup if it is harmless, whether the user file is read before or after it is written |
| `ConfigFiles.HarmlessOnlyIf` | steamos_log_submitter/config.py:139-148 | and if it changes no lookup it is harmless |
| `ConfigFiles.HarmlessWithoutDefaults` | steamos_log_submitter/config.py:126-149 | without `[DEFAULT]` sections in the user and local files every migration is harmless |
| `Migration.PathsAre` | steamos_log_submitter/config.py:84-108 | which user and local files are read, from the entries of the base and user files |
| `Migration.KeyKeepsReady` | steamos_log_submitter/config.py:126-149 | after migrating a key, harmful or not, memory agrees with the disk and the key is not migrated again |
| `Migration.KeyKeepsLookups` | steamos_log_submitter/config.py:126-149 | one harmless migration keeps every lookup, in memory and for a process that reads the disk after either write, also if a write fails |
| `Migration.UpgradeKeepsLookups` | steamos_log_submitter/config.py:152-164 | a harmless upgrade keeps every lookup however it ends, and so does every disk state on the way |
| `Migration.UpgradeKeepsLookupsExactly` | steamos_log_submitter/config.py:152-164 | an upgrade that ends normally keeps every lookup if and only if its migrations are harmless |
| `Migration.UpgradeWithoutDefaults` | steamos_log_submitter/config.py:152-164 | without `[DEFAULT]` sections in the user and local files upgrading keeps every lookup |
| `Migration.UpgradeTwice` | steamos_log_submitter/config.py:152-164 | upgrading again migrates nothing and changes nothing |
| `Migration.UpgradeAfterRestart` | steamos_log_submitter/config.py:152-164 | nor does a later process migrate anything when nothing was unsaved |
| `Migration.UpgradeMoves` | steamos_log_submitter/config.py:152-164 | an upgrade that ends normally moves `enable` of sls and of every helper and the three steam keys to the local file with their values, if only the user file has them; the local file has them in any case |
| `Migration.UpgradeMovesNothingElse` | steamos_log_submitter/config.py:152-164 | and no other option of either file is touched |
| `Migration.UserDefaultWins` | steamos_log_submitter/config.py:137-164 | an upgrade of three concrete files that ends normally and changes a lookup, because a default of the user file replaces the value of the base section |
| `Migration.LocalDefaultWins` | steamos_log_submitter/config.py:140-164 | another, because a default of the local file begins to apply to a section that is new to it |
| `Config.Configuration.Get` | steamos_log_submitter/config.py:36-43 | local wins over base and user, those over the defaults of the section, and otherwise a KeyError is raised |
| `Config.Configuration.Set` | steamos_log_submitter/config.py:45-48 | the option is looked up as set, and no other lookup changes unless the section is new |
| `Config.Configuration.FindUserPath` | steamos_log_submitter/config.py:84-96 | the user file is the configured one, or the one in the home of the configured account if that exists |
| `Config.Configuration.ReloadConfig` | steamos_log_submitter/config.py:72-116 | base and user are read afresh, the local file into what is in memory; missing files add nothing |
| `Config.Configuration.WriteFile` | steamos_log_submitter/config.py:119-123 | a file is replaced, or nothing is and an error is raised |
| `Config.Configuration.MigrateKey` | steamos_log_submitter/config.py:126-149 | the reads, tests and two writes in their order are the migration of the theorems, with each way to return early or to raise |
| `Config.Configuration.Upgrade` | steamos_log_submitter/config.py:152-164 | all keys are tried in order, and the files reloaded if one was migrated |
| `Kdump.SegmentsSplit` | steamos_log_submitter/helpers/kdump.py:124-131 | the segments are the pieces of the log between the lines that start with `RIP: ` |
| `Kdump.IgnoredIs` | steamos_log_submitter/helpers/kdump.py:106-110 | the three symbols after which a trace starts anew |
| `Kdump.InternalIs` | steamos_log_submitter/helpers/kdump.py:136 | the prefix of the symbols a trace does not begin with |
| `Kdump.CertainOfLine` | steamos_log_submitter/helpers/kdump.py:133-135 | a line gives its frame unless it has none or a questionable one |
| `Kdump.CertainInOrder` | steamos_log_submitter/helpers/kdump.py:124-135 | and the lines do so in order |
| `Kdump.KeptIs` | steamos_log_submitter/helpers/kdump.py:133-151 | what is kept of a segment is the longest end of its certain frames after the last ignored one that does not begin with an internal one |
| `Kdump.TraceFrames` | steamos_log_submitter/helpers/kdump.py:112-147 | each frame of a trace has the symbol, offset and module of the kept frame in its place from the end |
| `Kdump.RegisterIs` | steamos_log_submitter/helpers/kdump.py:154-167 | a register has the last value that a line without a frame gives it |
| `Kdump.RegisterWasFound` | steamos_log_submitter/helpers/kdump.py:154-167 | and there is no other register |
| `Kdump.NoTrace` | steamos_log_submitter/helpers/kdump.py:128-129 | a segment has no trace exactly when nothing is kept of it |
| `Kdump.TracesInOrder` | steamos_log_submitter/helpers/kdump.py:112-122 | the traces of the segments follow each other in the order of the log |
| `Kdump.ReversedAt` | steamos_log_submitter/helpers/kdump.py:112-113 | the frames of a trace are those kept, in reverse order |
| `Kdump.OneMoreFrame` | steamos_log_submitter/helpers/kdump.py:133-152 | the cases of the loop body are what one more line does to the frames kept |
| `Kdump.Parser.ReadFrame` | steamos_log_submitter/helpers/kdump.py:133-152 | a frame line keeps the fields equal to what the specification says of the lines read |
| `Kdump.Parser.ReadRegisters` | steamos_log_submitter/helpers/kdump.py:154-167 | so does a line without a frame, where the last value of a register wins |
| `Kdump.Parser.ParseTraces` | steamos_log_submitter/helpers/kdump.py:100-171 | for every log the traces are those of its segments, in order: the frames kept, reversed, with the registers of the lines without frames, and none for a segment without frames |
| `Kdump.RunLength` | steamos_log_submitter/helpers/kdump.py:226 | a run is maximal |
| `Kdump.PickIs` | steamos_log_submitter/helpers/kdump.py:226-231 | the trace that stands for a run is its first one with registers, or else its first |
| `Kdump.PrunedByRuns` | steamos_log_submitter/helpers/kdump.py:223-232 | a run of equal frames is pruned to one trace, and what follows it by itself |
| `Kdump.Prune` | steamos_log_submitter/helpers/kdump.py:221-232 | the loop computes one trace for each maximal run of equal frames |
| `Kdump.PruningIsIdempotent` | steamos_log_submitter/helpers/kdump.py:221-232 | neighbours in the result differ in their frames, and pruning again changes nothing |
| `MatchRule.TokenizeString` | steamos_log_submitter/dbus.py:116-149 | the loop is the recursive scanner; without a delimiter the last character is what remains |
| `MatchRule.ParseString` | steamos_log_submitter/dbus.py:152-166 | the loop terminates on every text and computes the map of the recursive parser |
| `MatchRule.ScanPieces` | steamos_log_submitter/dbus.py:116-149 | any row of quoted, bare and escaped pieces is read as the text they stand for, up to the delimiter |
| `MatchRule.BackslashOutside` | steamos_log_submitter/dbus.py:133-144 | outside quotes a backslash stays before any character but a quote and another backslash, and two become one |
| `MatchRule.BackslashAtEnd` | steamos_log_submitter/dbus.py:147-148 | a backslash before the delimiter or at the end stays |
| `MatchRule.InsideQuotes` | steamos_log_submitter/dbus.py:123-145 | inside quotes every character but a quote stands for itself |
| `MatchRule.KeyNeedsValue` | steamos_log_submitter/dbus.py:154-162 | text without a delimiter and something after it is no key |
| `MatchRule.ParsesBack` | steamos_log_submitter/dbus.py:152-166 | a rule printed with any choice of pieces is parsed back, unless its last value is written as nothing |
| `MatchRule.LastEmptyValueIsLost` | steamos_log_submitter/dbus.py:160-162 | in that case exactly the last pair is lost |
| `MatchRule.PiecesPrintAsQuote` | steamos_log_submitter/dbus.py:125-145 | quoting with single quotes, where each quote becomes `'\''`, is such a choice of pieces |
| `MatchRule.QuotedRuleParsesBack` | steamos_log_submitter/dbus.py:114-166 | any list of keys and values, printed with quotes, is parsed to exactly its map |
| `MatchRule.MapOfIsLast` | steamos_log_submitter/dbus.py:165 | in that map each key has its last value |
| `CaseNames.Underscored` | steamos_log_submitter/util.py:255-259 | the inner loop adds an underscore if and only if the last letter is a lower case one |
| `CaseNames.Snake` | steamos_log_submitter/util.py:248-263 | the loop computes the recursive snake case |
| `CaseNames.CamelCaseIsCapitals` | steamos_log_submitter/util.py:238-245 | a name of words becomes the words with capitals |
| `CaseNames.CamelCaseIs` | steamos_log_submitter/util.py:238-245 | no underscore is left, and a text without any changes at most its first letter |
| `CaseNames.RoundTrip` | steamos_log_submitter/util.py:238-263 | snake case undoes camel case if and only if every word but the last has two letters, or is one bare letter before a word whose second character is a letter |
| `CaseNames.NoClash` | steamos_log_submitter/client.py:84 | two such helpers never share an object path |
| `Signature.SignaturePrintsShape` | steamos_log_submitter/dbus.py:31-55 | an annotation has a signature if and only if all its parts outside unions have one, and it prints the shape |
| `Signature.Letters` | steamos_log_submitter/dbus.py:32-45 | the letters of the simple types and of unions, and an error for all others |
| `Signature.Brackets` | steamos_log_submitter/dbus.py:46-54 | and the brackets of mappings, sequences and tuples |
| `Signature.DecodesPrinted` | steamos_log_submitter/dbus.py:31-55 | followed by anything, a printed shape is decoded, and exactly what follows is left |
| `Signature.PrintsDecoded` | steamos_log_submitter/dbus.py:31-55 | whatever is decoded prints as what was read |
| `Signature.SignatureIsDecodable` | steamos_log_submitter/dbus.py:31-55 | a signature determines its annotation up to unions and kinds of sequences |
| `Signature.SignaturesArePrefixFree` | steamos_log_submitter/dbus.py:31-55 | no signature is the beginning of one of another shape |
| `Signature.RowsAreDecodable` | steamos_log_submitter/dbus.py:52 | a row of signatures, as in a tuple, determines each of them |
| `Environ.Removed` | steamos_log_submitter/helpers/minidump.py:44-49 | after a replacement the replaced text, and any that was not there before, is nowhere in the value |
| `Environ.RemovedExactly` | steamos_log_submitter/helpers/minidump.py:46-49 | for a target without `$` and `}` this holds for all values if and only if the reference does not contain it |
| `Environ.KeysAre` | steamos_log_submitter/helpers/minidump.py:38-47 | SteamAppUser is removed, and HOME and USER unless they are missing or empty |
| `Environ.ValueIs` | steamos_log_submitter/helpers/minidump.py:42-49 | every value is replaced for each of the two that is set, HOME first |
| `Environ.HomeNeverLeaks` | steamos_log_submitter/helpers/minidump.py:42-49 | no value contains the old HOME, whether or not USER is set |
| `Environ.UserNeverLeaks` | steamos_log_submitter/helpers/minidump.py:46-49 | no value contains the old USER, whether or not HOME is set |
| `Environ.NothingLeaks` | steamos_log_submitter/helpers/minidump.py:36-49 | no value contains the old HOME or the old USER, and SteamAppUser, HOME and USER are gone, if both are free of `$` and `}` and not in the references |
| `Environ.HomeWithSlash` | steamos_log_submitter/helpers/minidump.py:44-49 | which is so for every HOME with a slash |
| `Environ.NothingElseIsLost` | steamos_log_submitter/helpers/minidump.py:42-49 | expanding the references with the old values gives back every value that had no `$` |
| `Environ.Environment.ReplaceAll` | steamos_log_submitter/helpers/minidump.py:44-45 | the loop over the dictionary replaces in every value once and changes no key |
| `Environ.Environment.SanitizeEnviron` | steamos_log_submitter/helpers/minidump.py:36-49 | the dictionary ends as the scrubbed one, also when HOME or USER is missing or empty |
| `Envelope.Event.AppendItem` | steamos_log_submitter/aggregators/sentry.py:52-61 | an item is its header line, its bytes and one newline |
| `Envelope.Event.Seal` | steamos_log_submitter/aggregators/sentry.py:129-153 | with attachments the buffer is the header line and the items in order; without any there is no envelope |
| `Envelope.ReadsItems` | steamos_log_submitter/aggregators/sentry.py:136-146 | a reader that takes a header line, as many bytes as it says and a newline recovers the items to the end |
| `Envelope.FramingRoundTrip` | steamos_log_submitter/aggregators/sentry.py:129-146 | whatever bytes the payloads have, the reader recovers the header and all attachments in order |
| `Envelope.StreamsDiffer` | steamos_log_submitter/aggregators/sentry.py:129-146 | different envelopes have different streams |

## Left out

- JournalCollection.IncrementalEqualsBatch: the failed invocations must not change between the rounds;
  `CollectedExactly` says what is appended when they do.
- Environ.NothingLeaks: sufficient conditions on HOME and USER; `RemovedExactly` says when one replacement works
  for all values.
- Watermark.ExactlyOnce: sufficient conditions on arrivals; `MissedForever` says what happens to the others.
- Liveness of triggers: the flag stays set when the task that owns it is cancelled or fails.
- A run whose own write of the configuration fails counts as begun, not as completed; it keeps the flag, and a
  later process may begin a run earlier than INTERVAL after it.
- The assertion at line 227 of daemon.py, which can fail; the model ends the waiting task with an error then.
- A task that awaits itself at line 226 of daemon.py fails at once; in the model it may also wait until it fails.
- A second call of `start` in one process, and the awaits of `start` after line 145.
- `lock` bodies of several processes interleaved between the staleness test and the taking over of the file.
- The three attempts to read a lock file that is still empty: `lock` is one step, so nobody sees another's
  half-written file, except after a crash.
- Collecting over D-Bus without the lock, which is why rounds of journal collection must not overlap.
- An arrival that overwrites a pending log of the same name, and the return values of `submit_category`.
- The search for failed units and its own cursor, which starts over when no line was read.
- Writing the configuration and cursor data in the middle of a file: a file is written whole or not at all.
- A user configuration path that is the base configuration file.
- Interpolation of configuration values, the case of option names, and errors in parsing a file.
- Characters outside ASCII in helper names and in the escapes that are unescaped.
- Printing match rules with backslashes outside quotes, where the source departs from the D-Bus Specification, and
  the matching of messages.
- The regular expressions of kernel traces, the summary and the module list around them, and the values of the
  fields of a Sentry event.
- D-Bus transport and signals, HTTP, compression, subprocesses, ELF files, the command line and logging.
