# CWC integration service: a Dafny model

The CWC integration service starts one short-lived Docker container per
dialogue session, for the CLiC or SBGN interface of the bioagents system.
The main service (`cwc_integ_app.py`) does the following:

- It admits at most `MAX_SESSIONS` concurrent sessions, counted in a Mongo
  `sessions` document.
- It accepts each form token only once, using the Mongo `tokens` collection.
- It hands out a fresh host port for each launch from the Mongo `ports`
  document.
- It runs the container and records its id and start time in a JSON
  registry file.
- It reaps sessions whose logs have been silent for a day, or that have
  run for five days.
- It tears down a session by harvesting its logs, then stopping and
  removing the container, then releasing the session slot.

Bulk cleanup tears down every registered container, one failure at a time.
`app.py` is an earlier, minimal launcher that allocates ports the same way.

The other core files deal with the harvested logs:

- Two generations of log harvesting (`get_logs.py`, `logs/get_logs.py`)
  copy a container's session log, its newest run directory and its
  bioagent images out of the container and upload them to S3.
- Two generations of log processing (`process_logs.py`,
  `logs/process_logs.py`) work on the facilitator log. They split it into
  dialogues, render it as LaTeX, and classify its KQML entries.
- The log browser (`log_browse_service/api.py`) caches the exported
  transcripts and serves them.

Modules follow the source files:

| module | file | source |
|---|---|---|
| `Wrappers` | wrappers.dfy | `Option`, `Result`, and the exception kinds the source raises |
| `Strings` | strings.dfy | the Python `str` and `os.path` operations the source uses |
| `Timestamps` | timestamps.dfy | `datetime`, the `%Y%m%d%H%M%S` format, `timedelta` |
| `Ports` | ports.dfy | the port allocator shared by `app.py` and `cwc_integ_app.py` |
| `Runtime` | runtime.dfy | the Docker daemon, the working directory and the S3 bucket, as one `Host` object |
| `CwcIntegApp` | cwc_integ_app.dfy | `cwc_integ_app.py` |
| `App` | app.dfy | `app.py` |
| `GetLogs` | get_logs.dfy | `get_logs.py` |
| `LogsGetLogs` | logs_get_logs.dfy | `logs/get_logs.py` |
| `ProcessLogs` | process_logs.dfy | `process_logs.py` |
| `LogsProcessLogs` | logs_process_logs.dfy | `logs/process_logs.py` |
| `LogBrowse` | api.dfy | `log_browse_service/api.py` |

The model takes the shape of the code:

- Stateful parts are classes whose methods change fields: `CwcIntegApp.Service`
  (registry file, sessions and tokens documents, clock), `Ports.PortStore`,
  `Runtime.Host`, `LogsGetLogs.LogFolder`, `LogsProcessLogs.CwcLogEntry` and
  `CwcLog`, and `LogBrowse.Browser`.
- Each loop of the source is a method with its invariants, proved against a
  specification function.
- Pure code (name formatting, filters, transcript segmentation and
  rendering) is functions with lemmas.
- A Python exception is an `Err` result carrying its exception kind.

The model follows the code as written in these places:

- A log harvest that raises aborts teardown before the container is stopped
  and before the session slot is released (`cwc_integ_app.py:235-247`), so
  the slot of such a session stays taken.
- The registry entry is removed before the container is stopped, not after.
- `decrement_sessions` does not stop at zero.
- `increment_sessions` refuses only when the count equals the cap.
- `_run_container` takes the session slot before `docker run`, and a run
  that fails keeps that slot (`cwc_integ_app.py:250-261`).
- `_record_my_container(id, 'add')` on an id that is already registered
  writes nothing and keeps the first start time, and `_run_container`
  ignores that answer (`cwc_integ_app.py:66-68`, line 260).

## Model

| member | source | states |
|---|---|---|
| CwcIntegApp.LoadedValid | cwc_integ_app.py:31-39 | every start time a loaded registry holds is a valid calendar date and time |
| CwcIntegApp.LoadedParsed | cwc_integ_app.py:31-39 | a registry whose every entry parses loads as exactly those parsed dates |
| CwcIntegApp.DumpLoad | cwc_integ_app.py:31-48 | dumping a registry and loading it back gives the same ids with their times truncated to whole seconds |
| CwcIntegApp.DumpedAdd | cwc_integ_app.py:42-48 | dumping a registry with one more entry adds exactly that entry, formatted, to the file |
| CwcIntegApp.DumpedRemove | cwc_integ_app.py:42-48 | dumping a registry without an id removes exactly that id from the file |
| CwcIntegApp.LoadDump | cwc_integ_app.py:31-48 | a file that loads is reproduced exactly by dumping what was loaded |
| CwcIntegApp.DumpAfterAdd | cwc_integ_app.py:57-73 | load, add and dump writes the old file plus the one formatted new entry |
| CwcIntegApp.DumpAfterRemove | cwc_integ_app.py:64-73 | load, delete and dump writes the old file minus that id |
| CwcIntegApp.LoadedAdd | cwc_integ_app.py:51-74 | the file written after an add loads as the old registry plus the new start time, to the second |
| CwcIntegApp.LoadedRemove | cwc_integ_app.py:64-73 | the file written after a remove loads as the old registry minus that id |
| CwcIntegApp.LoadsWhenAllParse | cwc_integ_app.py:31-39 | a file loads exactly when every start time in it parses, and still does with entries removed |
| CwcIntegApp.FileLoadsWhenAllParse | cwc_integ_app.py:31-39 | a missing file loads as empty; a present one loads exactly when every start time in it parses |
| CwcIntegApp.TimedOutAsWrittenNever | cwc_integ_app.py:100-101 | the timer test as written, on `timedelta.seconds`, is false for every pair of dates |
| CwcIntegApp.TimedOutAsWrittenMissesSilentSession | cwc_integ_app.py:97-101 | a session silent for two days is timed out by the intended test and not by the written one |
| CwcIntegApp.TimedOutMonotone | cwc_integ_app.py:97-101 | a session that is timed out stays timed out later; it is not timed out iff it is within one day of its last heartbeat and five days of its start |
| CwcIntegApp.SweepDone | cwc_integ_app.py:86-103 | once every registry entry has been checked, the entries stopped are exactly the expired ones |
| CwcIntegApp.ForeseenAll | cwc_integ_app.py:89-102 | before the reaper starts, each entry's outcome is known: it can be judged, it is expired, and the loop gets past it, each exactly as the sets computed from the registry and the containers say |
| CwcIntegApp.ClearsAll | cwc_integ_app.py:86-103 | the reaper gets past every entry exactly when every entry can be judged and every expired container can be harvested |
| CwcIntegApp.VerdictsOfSets | cwc_integ_app.py:89-102 | the verdict on each entry is "uncheckable", or "expired" exactly when it belongs to the expired set |
| CwcIntegApp.SweepStep | cwc_integ_app.py:89-102 | checking one more entry keeps the sweep's state: expired ones leave the containers, registry and count, and the others change nothing |
| CwcIntegApp.CleanStep | cwc_integ_app.py:271-279 | tearing down one more entry keeps the cleanup's state: its record goes in every case; it is reported as failed exactly when its shutdown raises, and otherwise its container and slot go |
| CwcIntegApp.MissingSessionsDocRaises | cwc_integ_app.py:135-154 | with no sessions document the counters as written reset it and then raise TypeError; with one they return the cap error or the new count |
| CwcIntegApp.BaseHost | cwc_integ_app.py:191 | the manager URL is `http://` followed by the request host up to its first ':', which is the whole request host when it has no ':' |
| CwcIntegApp.RetireContainer | cwc_integ_app.py:239-245 | harvest, stop and remove fails exactly when the container is missing or its harvest fails, and then nothing is removed or uploaded; a known container's session log and run archive are written in either case; on success the container is gone, the session log and the run files are uploaded, and the last two daemon events are its stop and removal |
| CwcIntegApp.PortText | cwc_integ_app.py:217-224 | the CLiC and SBGN container ports render as "8000" and "3000", also with the "/tcp" suffix of the port map key |
| CwcIntegApp.Service.constructor | cwc_integ_app.py:21-28 | the service starts from the given stores, clock and Docker host |
| CwcIntegApp.Service.LoadIdDict | cwc_integ_app.py:31-39 | the loaded registry is the parsed file, with the same ids; an unparsable time is a ValueError |
| CwcIntegApp.Service.DumpIdDict | cwc_integ_app.py:42-48 | the file now holds every id with its start time formatted, and nothing else changes |
| CwcIntegApp.Service.RecordMyContainer | cwc_integ_app.py:51-74 | an unknown action is an AssertionError; an add reports whether the id was new and adds it; a remove reports whether it was present and deletes it |
| CwcIntegApp.Service.UpdateIdDict | cwc_integ_app.py:56-73 | success iff the add was of a new id or the remove of a present one; the file changes only then |
| CwcIntegApp.Service.GetNumSessions | cwc_integ_app.py:127-132 | the stored count, and zero when there is no document |
| CwcIntegApp.Service.ResetSessions | cwc_integ_app.py:118-124 | the sessions document holds zero, and nothing else changes |
| CwcIntegApp.Service.IncrementSessions | cwc_integ_app.py:135-144 | fails with SessionLimitExceeded exactly at the cap and leaves the count; otherwise stores and returns the count plus one, so it never exceeds the cap |
| CwcIntegApp.Service.DecrementSessions | cwc_integ_app.py:147-154 | stores and returns the count minus one, and nothing else changes |
| CwcIntegApp.Service.AddToken | cwc_integ_app.py:157-158 | the token is appended to the tokens, and nothing else changes |
| CwcIntegApp.Service.HasToken | cwc_integ_app.py:161-168 | true iff the token was recorded before |
| CwcIntegApp.Service.RunContainer | cwc_integ_app.py:250-261 | at the cap it fails with SessionLimitExceeded and changes nothing; otherwise the slot is taken, and the run fails on an existing container or an unreadable registry; it succeeds exactly otherwise, with the container running, publishing the port and registered |
| CwcIntegApp.Service.StopContainer | cwc_integ_app.py:235-247 | succeeds exactly when the record (if asked to remove it) is registered in a readable file and the container is known and harvestable; an unregistered id is an AssertionError with no daemon call; a success removes the record, uploads the harvest, stops and removes the container in that order of events, and gives back one slot; a failure keeps the container, the uploads and the count |
| CwcIntegApp.Service.StopSession | cwc_integ_app.py:227-232 | an empty id is an AssertionError that changes nothing; success happens exactly for a registered, known and harvestable container, answers "Success!", and removes the container and its record with one slot released |
| CwcIntegApp.Service.CheckContainer | cwc_integ_app.py:91-102 | reports whether the container timed out by its last heartbeat and start time; for a registered entry it succeeds exactly when the container has a valid heartbeat and, if timed out, can be harvested; a timed-out one is torn down and unregistered with one slot released, and any other changes nothing |
| CwcIntegApp.Service.CheckTimers | cwc_integ_app.py:77-103 | an unreadable registry is a ValueError; the sweep succeeds exactly when every entry can be judged and every expired container harvested; then exactly the expired registered containers are torn down and unregistered, and the count drops by their number (`Sweeps`, `SweptContainers`, `Swept` and `SweptCount` name the outcome), and the registry file stays readable |
| CwcIntegApp.Service.Sweep | cwc_integ_app.py:89-103 | the reaper's loop succeeds exactly when every registry entry is one it gets past, and then has established the sweep state for all of them, whatever the order |
| CwcIntegApp.Service.SweepRound | cwc_integ_app.py:89-102 | one reaper iteration succeeds exactly when that entry is one the sweep gets past, and then extends the sweep state by that entry |
| CwcIntegApp.Service.Admit | cwc_integ_app.py:173-198 | at or above the cap the answer is "too many sessions"; a missing token is a KeyError; a used token gets 204; a new token is recorded, a port is allocated and a slot taken; the launch succeeds exactly when the container name is free (`Answers`), and then starts the container at the answered URL, raises the count by one and registers it with the current time, leaving every other registry entry as it was |
| CwcIntegApp.Service.Launch | cwc_integ_app.py:189-198 | records the token, takes the next port and a slot, and answers the dialogue URL on that port with the container id, the container running and registered with the current time and every other registry entry unchanged; or it propagates the daemon or registry error |
| CwcIntegApp.Service.LaunchApp | cwc_integ_app.py:171-198 | reaps first, then admits; a failed sweep is an error; after a successful sweep every answer is fixed by the count after the sweep and the swept containers (`Answers`): too many sessions at the cap, KeyError without a token, 204 for a used token, and for a new token a launch exactly when the name is free, with the count after the sweep plus one; a launch means a new port, the containers after the sweep plus the new one publishing the interface port there, and the registry after the sweep plus the new entry |
| CwcIntegApp.Service.LaunchClic | cwc_integ_app.py:217-219 | a failed sweep is an error; after a successful one the answers are those of LaunchApp (`Answers` on the count after the sweep); a CLiC launch publishes container port 8000 on the allocated port, answers the URL ending in `/clic/bio`, and leaves the registry after the sweep plus the new entry |
| CwcIntegApp.Service.LaunchSbgn | cwc_integ_app.py:222-224 | a failed sweep is an error; after a successful one the answers are those of LaunchApp (`Answers` on the count after the sweep); an SBGN launch publishes container port 3000 on the allocated port, answers the bare URL, and leaves the registry after the sweep plus the new entry |
| CwcIntegApp.Service.Cleanup | cwc_integ_app.py:264-282 | an unreadable registry is a ValueError; otherwise the registry ends empty, the failed ids returned are exactly the registered ones whose container is missing or cannot be harvested, and every other registered container is gone with its slot |
| CwcIntegApp.Service.CleanAll | cwc_integ_app.py:269-279 | the cleanup loop over every key establishes the cleanup state for all of them, whatever the order, with the failed ones exactly the unharvestable ones |
| CwcIntegApp.Service.CleanRound | cwc_integ_app.py:272-279 | one teardown attempt, with its exception caught, extends the cleanup state by that id, counting it failed exactly when it cannot be harvested |
| Ports.Issued | cwc_integ_app.py:106-115 | n allocations from a document issue n ports |
| Ports.StoredIsLastIssued | cwc_integ_app.py:106-115 | after n allocations the document holds the last port issued |
| Ports.IssuedAbove | cwc_integ_app.py:108-114 | every port issued is above the stored one, and the first port from no document is 8000 |
| Ports.IssuedIncreasing | cwc_integ_app.py:111-114 | successive allocations are strictly increasing, so no port is issued twice |
| Ports.PortStore.constructor | app.py:8 | the allocator starts from the given document |
| Ports.PortStore.GetIncrementPort | app.py:11-20 | returns 8000 when there is no document and the stored port plus one otherwise, and stores what it returns |
| App.Launcher.constructor | app.py:6-8 | the launcher holds the given port store and Docker host |
| App.Launcher.Launch | app.py:28-36 | always takes the next port; fails with ApiError exactly when the container exists; otherwise the container runs publishing port 80 there, and the answer is that port's decimal digits |
| GetLogs.CLs | get_logs.py:6-17 | an exited container is started, attached, listed and stopped again; a running one is listed as is; any other state is an ApiError; the listing is the directory's |
| GetLogs.SelectRunSpec | get_logs.py:22-25 | no run is selected iff no entry is a run directory; otherwise the selection is the lexicographically greatest run directory |
| GetLogs.DashedPointwise | get_logs.py:42-43 | every ':' and '.' becomes '-', and every other character stays |
| GetLogs.FormatContDateChars | get_logs.py:41-44 | the formatted date contains no ':' and no '.' |
| GetLogs.FormatContDateCut | get_logs.py:42-43 | the formatted date is the dashed date up to its last '-', or empty when it has none |
| GetLogs.SessionLogNameParts | get_logs.py:35 | the session log name is container name, '_', formatted date and ".log" |
| GetLogs.RunArchiveNameParts | get_logs.py:26 | the run archive name is container name, '_', run and ".tar.gz" |
| GetLogs.SessionLogIsNotArchive | get_logs.py:26-35 | a session log name never equals a run archive name |
| GetLogs.GetSessionLogs | get_logs.py:34-38 | writes the container's logs under its session log name, and nothing else changes |
| GetLogs.RunOutcomeNames | get_logs.py:20-31 | no archive iff no run directory is listed; otherwise the archive is saved from the greatest run directory, under that run's name and with that run's contents |
| GetLogs.RunFilesFrame | get_logs.py:27-31 | saving a run archive leaves every file of another name as it was |
| GetLogs.RunFilesGrow | get_logs.py:27-31 | saving a run archive keeps every file and adds the archive it names |
| GetLogs.AllPresentGrow | get_logs.py:64-67 | names that can be opened stay so when files are only added |
| GetLogs.PresentStep | get_logs.py:77-79 | after one more container, every session log and run archive harvested so far can be opened |
| GetLogs.ListingFails | get_logs.py:74-79 | going through the listed containers meets a failing run listing exactly when some container has one |
| GetLogs.GetRunLogs | get_logs.py:20-31 | makes the listing calls, returns the run outcome and writes only the archive file |
| GetLogs.DumpOnS3 | get_logs.py:60-69 | no name uploads nothing; a missing file is FileNotFound; otherwise exactly one upload of that file's body under the prefixed key |
| GetLogs.UploadsForAppend | get_logs.py:84-85 | uploading a concatenation uploads the first part and then the second |
| GetLogs.DumpAll | get_logs.py:84-85 | succeeds iff every named file exists, and then uploads them in order |
| GetLogs.GetLogsForContainer | get_logs.py:52-57 | writes the session log and the run archive; fails iff the run listing fails; success uploads the session log and then the run archive, as HarvestUploads lists them |
| GetLogs.HarvestUploads | get_logs.py:52-57 | a harvest uploads the session log first, under the prefixed session log name, and then the run files |
| GetLogs.SessionLogNames | get_logs.py:77-78 | the i-th harvested session log is the session log name of the i-th container |
| GetLogs.HarvestOne | get_logs.py:77-79 | one iteration yields the container's session log name and run outcome; the session log file and any run archive are then among the files, and no file is lost |
| GetLogs.HarvestAll | get_logs.py:75-79 | fails iff some container's run listing fails; otherwise the session logs and run archives correspond to the containers one by one, and every one of them can be opened |
| GetLogs.GetLogs | get_logs.py:72-86 | succeeds exactly when every container's run listing succeeds (the uploads cannot fail, as every harvested file exists); success uploads all run archives and then all session logs |
| LogsGetLogs.CLs | logs/get_logs.py:15-26 | any container that is not running is started, attached, listed and stopped; the listing is the directory's |
| LogsGetLogs.MakeContName | logs/get_logs.py:71-76 | a name is produced only for an image with a parsable creation date |
| LogsGetLogs.MakeContNameErrors | logs/get_logs.py:72-76 | an unparsable date is a ValueError and an image id without ':' is an IndexError, and a name is produced exactly otherwise |
| LogsGetLogs.ContNameStamp | logs/get_logs.py:72-76 | the name is short image id, '-', the image date as 14 digits that parse back to it, and ends in '_' and the container name |
| LogsGetLogs.StampedName | logs/get_logs.py:74-76 | the stamp in a composed name parses back to the date it was made from |
| LogsGetLogs.GetSessionLogs | logs/get_logs.py:43-47 | on a nameable container, writes its logs under the composed name; otherwise propagates the naming error and writes nothing |
| LogsGetLogs.SaveRunArchive | logs/get_logs.py:35-40 | the archive outcome and the file written are those of the named run |
| LogsGetLogs.GetRunLogs | logs/get_logs.py:29-40 | makes the listing calls, returns the run outcome and writes only the archive file |
| LogsGetLogs.ImagesOutcome | logs/get_logs.py:50-62 | no image archive means no file; with one the outcome fails iff the name does; the file name ends in `_bioagent_images.tar.gz` |
| LogsGetLogs.GetBioagentImages | logs/get_logs.py:50-62 | writes the image archive under its name exactly when one is produced |
| LogsGetLogs.TaskOutcomeListed | logs/get_logs.py:80-84 | listing a container does not change what any harvesting task produces |
| LogsGetLogs.RunTask | logs/get_logs.py:84 | each task yields its outcome, and a produced file exists locally |
| LogsGetLogs.OutcomesAt | logs/get_logs.py:80 | the k-th outcome is that of the k-th task |
| LogsGetLogs.HarvestNamesOk | logs/get_logs.py:79-95 | the harvest succeeds iff every task produces a file, and then the i-th name is the interface, '-', and the i-th file |
| LogsGetLogs.HarvestNamesFirstFailure | logs/get_logs.py:84-89 | the first task that fails decides the error: its exception, or TypeError for a task that produced nothing |
| LogsGetLogs.HarvestTask | logs/get_logs.py:84-94 | a failed task propagates its error and one with no file is a TypeError; a produced file is renamed with the interface prefix and uploaded once under the prefixed key |
| LogsGetLogs.HarvestRoundOk | logs/get_logs.py:82-94 | a producing task extends the harvested names by its prefixed file |
| LogsGetLogs.HarvestRoundFails | logs/get_logs.py:84-89 | a failing task ends the harvest with its error |
| LogsGetLogs.HarvestRound | logs/get_logs.py:82-94 | one loop iteration returns the harvest's error or extends its state by one task |
| LogsGetLogs.GetLogsForContainer | logs/get_logs.py:79-95 | the result is the harvest of the container's task outcomes; success appends exactly one upload per name, with the prefixed names as keys, all into the bucket |
| LogsGetLogs.KeyFilter | logs/get_logs.py:144-145 | the kept keys are exactly the log keys |
| LogsGetLogs.KeyFilterIdempotent | logs/get_logs.py:144-145 | filtering twice is filtering once |
| LogsGetLogs.HeadDirShape | logs/get_logs.py:155-157 | the directory is the image id with ':' made '-', then '_', container name, '_' and hash |
| LogsGetLogs.HeadDirsSpec | logs/get_logs.py:150-158 | the directories are found iff every key matches, and they are exactly the directories of the keys |
| LogsGetLogs.HeadDirsStep | logs/get_logs.py:151-158 | one more key adds its directory, or ends the search |
| LogsGetLogs.HeadDirsNone | logs/get_logs.py:153-154 | one key that does not match fails the whole sync |
| LogsGetLogs.LogFolder.constructor | logs/get_logs.py:130 | the folder starts with the given directories and files |
| LogsGetLogs.LogFolder.Fetch | logs/get_logs.py:159-185 | the directory exists afterwards; the log is written unless images were asked for, no log was found, or a cached copy exists |
| LogsGetLogs.KeyStepFiles | logs/get_logs.py:163-185 | after one key the files are the old ones plus, when the key is not the images tarball and its tarball has a facilitator log, that log at `log.txt` in its head directory, unless caching is on and that path exists |
| LogsGetLogs.SyncGrows | logs/get_logs.py:151-185 | the keys only add directories and files, and with caching on no file changes |
| LogsGetLogs.SyncWrites | logs/get_logs.py:163-185 | with caching off, the last key writing a facilitator log to a `log.txt` leaves its log there |
| LogsGetLogs.SyncWritesAll | logs/get_logs.py:151-185 | with caching off, every `log.txt` written holds the log of the last key writing it |
| LogsGetLogs.LogFolder.SyncKey | logs/get_logs.py:151-185 | returns the key's directory, which then exists; the folder is exactly `KeyStep` of the old one: the head directory made if missing and the facilitator log written as KeyStepFiles states; nothing is removed, and with caching on no file is overwritten |
| LogsGetLogs.LogFolder.SyncFromS3 | logs/get_logs.py:130-186 | fails with AssertionError iff some log key does not match; otherwise returns the directories of the log keys, each of which exists, the folder is `SyncState` of the log keys in order, and with caching off every `log.txt` holds the facilitator log of the last key writing it; nothing is removed, and with caching on nothing is overwritten |
| LogsProcessLogs.SessionsByContName | logs/process_logs.py:22-30 | the sessions whose container name matches, in store order |
| LogsProcessLogs.SessionsByContId | logs/process_logs.py:33-41 | the sessions whose container id matches, in store order |
| LogsProcessLogs.SessionsByContNameId | logs/process_logs.py:44-50 | the sessions matching both id and name, in store order |
| LogsProcessLogs.FirstOfFilter | logs/process_logs.py:58-65 | the filter is empty iff nothing matches, and otherwise starts with the first match |
| LogsProcessLogs.UserForSession | logs/process_logs.py:53-66 | no name and no id is a ValueError; otherwise the user and email of the first candidate, or empty strings when there is none |
| LogsProcessLogs.FirstUser | logs/process_logs.py:60-65 | empty strings when no session matches, and otherwise the first matching session's user and email |
| LogsProcessLogs.UserForSessionByName | logs/process_logs.py:58-65 | looking up by name finds nothing iff no stored session has that name, and otherwise the first one that has it |
| LogsProcessLogs.ContentIs | logs/process_logs.py:231-268 | a sem holds only for parsed content; bioagent sems only for a bioagent partner and other sems only for another partner; user utterances only from TEXTTAGGER; an unknown sem is false; the only error is an unparsed user utterance |
| LogsProcessLogs.PartnerKindsExclusive | logs/process_logs.py:237-266 | no entry holds both a bioagent sem and a non-bioagent sem |
| LogsProcessLogs.FirstSem | logs/process_logs.py:124-131 | the sem found is the first in order that holds, and none found means none holds |
| LogsProcessLogs.FindSem | logs/process_logs.py:126-130 | the loop returns the first sem that holds, or the first error |
| LogsProcessLogs.SemIsFirstHolding | logs/process_logs.py:124-131 | with parsed content the search cannot fail, and whenever some sem holds one is found |
| LogsProcessLogs.Shown | logs/process_logs.py:274-278 | a message of at most 50 characters is shown whole, and a longer one as its first 47 characters and "..." |
| LogsProcessLogs.CwcLogEntry.constructor | logs/process_logs.py:108-116 | an entry starts with its fields and no content or sem cached |
| LogsProcessLogs.CwcLogEntry.GetContent | logs/process_logs.py:118-122 | the parsed KQML is returned and cached, and an unparsable message is a KqmlError |
| LogsProcessLogs.CwcLogEntry.GetSem | logs/process_logs.py:124-131 | returns the first sem that holds and caches it |
| LogsProcessLogs.CwcLogEntry.IsSem | logs/process_logs.py:133-137 | an unknown sem is a ValueError; otherwise true iff it is the entry's sem |
| LogsProcessLogs.CwcLogEntry.Repr | logs/process_logs.py:270-281 | "to" the partner for sent entries and "from" it otherwise, ending in the shortened message |
| LogsProcessLogs.CwcLog.constructor | logs/process_logs.py:292-299 | a log starts with its sections and no entries cached |
| LogsProcessLogs.CwcLog.GetAllEntries | logs/process_logs.py:346-356 | the entries are built once and cached; a log with no sections is an AssertionError |
| LogsProcessLogs.CwcLog.CollectIo | logs/process_logs.py:363-371 | the entries kept are exactly the input and output entries, in order |
| LogsProcessLogs.CwcLog.Classify | logs/process_logs.py:364-371 | an entry is kept iff it is an input or output entry |
| LogsProcessLogs.CwcLog.GetIoEntries | logs/process_logs.py:358-373 | the input and output entries, in order, cached |
| LogsProcessLogs.ImageLocation | logs/process_logs.py:188-200 | no images folder in the path gives ""; otherwise the static path from the first images folder on; a log dir without '/' is an IndexError |
| LogsProcessLogs.LocationParts | logs/process_logs.py:196-199 | joining parts without the separator splits back into the same parts |
| LogsProcessLogs.DetectInterface | logs/process_logs.py:309-322 | no image is an AttributeError; the kind is CLIC or SBGN by the prefix, ignoring case, and UNKNOWN otherwise; the version carries no date; the id part is DropDate of the id (past the kind's four characters and any leading '-' when the kind is known) |
| LogsProcessLogs.InterfaceOf | logs/process_logs.py:310-317 | exactly one of CLIC, SBGN and UNKNOWN, by prefix |
| LogsProcessLogs.DateHasDash | logs/process_logs.py:321-322 | an id containing "-20" contains a '-', so the cut at the first '-' shortens it |
| LogsProcessLogs.DropDate | logs/process_logs.py:321-322 | an id containing "-20" is cut just before its first '-', leaving a prefix with no '-'; an id without "-20" is kept whole |
| LogsProcessLogs.ExportTarget | logs/process_logs.py:430-438 | a ".pdf" output file means pdf; otherwise the type must be pdf or html, ignoring case, or it is a ValueError; the default html target is `transcript.html` in the log dir |
| ProcessLogs.SenderCaseInsensitive | process_logs.py:43-53 | sender and receiver tests ignore the case of the name |
| ProcessLogs.ParseClock | process_logs.py:71 | a parsed clock has hours below 24, minutes below 60 and seconds up to 61 |
| ProcessLogs.DropLast3 | process_logs.py:71 | the last three characters are cut off |
| ProcessLogs.GetTimestamp | process_logs.py:69-74 | no `T` attribute is a TypeError and an unparsable one a ValueError; otherwise the text and the start plus the clock's seconds |
| ProcessLogs.ClockOfPads | process_logs.py:71 | a zero-padded clock parses back to its hours, minutes and seconds |
| ProcessLogs.TimestampOfParsed | process_logs.py:69-74 | the timestamp is the start plus 3600h + 60m + s |
| ProcessLogs.TimestampOfClock | process_logs.py:69-74 | a well-formed `T` attribute yields the start plus its seconds |
| ProcessLogs.ReformatText | process_logs.py:62-67 | no `<b>` or `</b>` remains, and every '%' and '_' is escaped |
| ProcessLogs.ReformatPlain | process_logs.py:62-67 | text without tags or special characters is unchanged |
| ProcessLogs.Strip | process_logs.py:124 | the result starts and ends with a character other than the ASCII whitespace `str.strip` removes, including the separators 0x1C-0x1F |
| ProcessLogs.StripSlice | process_logs.py:124 | stripping keeps a contiguous slice and removes only whitespace |
| ProcessLogs.ImageName | process_logs.py:151-153 | without a folder the image is named by the path's last component; with one, by the folder and that name |
| ProcessLogs.ImageLinesWellKinded | process_logs.py:146-154 | every image line is an image line from Bob with a bare name when no folder is given |
| ProcessLogs.TagLinesWellKinded | process_logs.py:131-162 | every line of a tag is a text line or a well-formed image line |
| ProcessLogs.AppendLast | process_logs.py:137 | only the current dialogue grows, by the new lines |
| ProcessLogs.Step | process_logs.py:119-162 | a step keeps at least one dialogue |
| ProcessLogs.Dialogues | process_logs.py:118-162 | segmentation always has at least one dialogue |
| ProcessLogs.DialoguesErrSticks | process_logs.py:119-125 | the first timestamp error ends segmentation with that error |
| ProcessLogs.DialoguesCount | process_logs.py:118-130 | one dialogue more than the number of start-conversation messages |
| ProcessLogs.DialoguesLines | process_logs.py:118-162 | the dialogues, put together, are the lines of every kept tag in order |
| ProcessLogs.DialoguesFail | process_logs.py:121-125 | segmentation fails iff some tag's timestamp is bad |
| ProcessLogs.DialoguesWellKinded | process_logs.py:131-162 | every line of every dialogue is well formed |
| ProcessLogs.AppendLine | process_logs.py:137 | appending one line appends it to the current dialogue |
| ProcessLogs.AddImages | process_logs.py:146-154 | the loop adds the image lines of the tag to the current dialogue |
| ProcessLogs.AddTagLines | process_logs.py:131-162 | the tag's lines are added to the current dialogue |
| ProcessLogs.Segment | process_logs.py:118-162 | the loop computes the segmentation |
| ProcessLogs.LatexLine | process_logs.py:89-102 | a text line renders with Bob in blue or User in green, an image line as includegraphics, and any other kind is an UnboundLocalError |
| ProcessLogs.LatexHeader | process_logs.py:77-84 | the preamble opens the article and ends with the dialogue date and maketitle |
| ProcessLogs.LatexWrapper | process_logs.py:76-87 | the document is the header, the content unchanged, and the end |
| ProcessLogs.RenderLinesErrSticks | process_logs.py:168-170 | the first unrenderable line ends rendering with its error |
| ProcessLogs.RenderErrSticks | process_logs.py:167-172 | the first unrenderable dialogue ends rendering with its error |
| ProcessLogs.RenderLinesOk | process_logs.py:168-169 | well-formed lines always render |
| ProcessLogs.RenderOk | process_logs.py:166-172 | well-formed dialogues always render |
| ProcessLogs.RenderAppend | process_logs.py:166-172 | rendering concatenated dialogues concatenates their renderings |
| ProcessLogs.AssembleLines | process_logs.py:168-170 | the loop renders the lines |
| ProcessLogs.Assemble | process_logs.py:166-172 | the loop renders the dialogues |
| ProcessLogs.DialogueDate | process_logs.py:55-58 | the DATE attribute, a space, and the TIME attribute |
| ProcessLogs.TexExports | process_logs.py:113-174 | a log with a start time and good timestamps always exports, as the wrapped rendering of its dialogues |
| ProcessLogs.FacilitatorToTexStr | process_logs.py:113-174 | the exported LaTeX, which starts with the header and ends with the end |
| ProcessLogs.FacilitatorToTexFile | process_logs.py:105-110 | the file export is the string export without an image folder |
| ProcessLogs.TexFileImagesBare | process_logs.py:108 | without an image folder, every image line names a bare file |
| LogBrowse.TranscriptPath | log_browse_service/api.py:23 | the path ends in `transcript.html` |
| LogBrowse.MergeKeeps | log_browse_service/api.py:19-29 | no cached entry is lost or changed, and the insertion order only grows at its end |
| LogBrowse.MergeAdds | log_browse_service/api.py:22-25 | each new entry is a listed session whose transcript exists, stored under that transcript's path |
| LogBrowse.MergeComplete | log_browse_service/api.py:22-25 | every listed session with a transcript ends up cached |
| LogBrowse.MergeOrdered | log_browse_service/api.py:16-25 | the order keeps listing each cached id exactly once |
| LogBrowse.MergeNothingNew | log_browse_service/api.py:22-25 | a listing with nothing new leaves the cache unchanged |
| LogBrowse.MergeIdempotent | log_browse_service/api.py:19-25 | updating twice from the same listing is updating once |
| LogBrowse.Browser.constructor | log_browse_service/api.py:11-33 | the logs directory is `templates/_logs` under the module's directory, and the cache is the first update of an empty one |
| LogBrowse.Browser.UpdateSessionList | log_browse_service/api.py:19-29 | the loop performs the merge and keeps the order free of duplicates |
| LogBrowse.Browser.Browse | log_browse_service/api.py:36-42 | a cached session renders its transcript template, and any other id gets the not-found text |
| LogBrowse.Browser.Index | log_browse_service/api.py:45-52 | each cached session exactly once, in the order added |
| LogBrowse.BrowseAfterUpdate | log_browse_service/api.py:19-42 | after an update every listed session with a transcript can be browsed, at its old path or at its transcript's path |
| Runtime.Host.constructor | get_logs.py:73 | the daemon starts with the given containers and files, and no events or uploads |
| Runtime.Host.Start | get_logs.py:10 | the container is running, and the start is recorded |
| Runtime.Host.Attach | get_logs.py:11 | only the attach is recorded |
| Runtime.Host.ExecLs | get_logs.py:13 | fails with ApiError iff the container is not running, and otherwise lists the directory |
| Runtime.Host.Stop | cwc_integ_app.py:243 | the container has exited, and the stop is recorded |
| Runtime.Host.Remove | cwc_integ_app.py:244 | removing a running container is an ApiError; otherwise it is gone |
| Runtime.Host.Run | cwc_integ_app.py:254-257 | fails with ApiError iff the id exists; otherwise the container runs with the given port bindings |
| Runtime.Host.ListAll | get_logs.py:74 | every container exactly once |
| Runtime.Host.WriteFile | get_logs.py:36-37 | the file holds the content, and nothing else changes |
| Runtime.Host.Rename | logs/get_logs.py:88 | a missing source is FileNotFound; otherwise the content moves to the new name |
| Runtime.Host.PutObject | get_logs.py:67-68 | exactly one upload is appended |
| Runtime.GetArchive | logs/get_logs.py:52-54 | the archive of a path exists iff the container has it, with its contents |
| Timestamps.Format14 | cwc_integ_app.py:45 | fourteen digits |
| Timestamps.Parse14 | cwc_integ_app.py:38 | a parsed date is valid, to the second, from fourteen digits |
| Timestamps.ParseFormat | cwc_integ_app.py:27 | formatting and parsing gives the date back, to the second |
| Timestamps.FormatParse | cwc_integ_app.py:31-48 | parsing and formatting gives the text back |
| Timestamps.ParseIso | logs/get_logs.py:72-73 | a parsed ISO date is valid and has the ISO separators in place |
| Timestamps.TimedeltaSeconds | cwc_integ_app.py:100 | `timedelta.seconds` is always below one day |
| Strings.ReplaceAvoids | process_logs.py:63-64 | after replacing a tag, neither it nor an absent tag occurs |
| Strings.ReplaceCharPointwise | get_logs.py:42-43 | replacing one character by another maps each position |
| Strings.EscapeEscapes | process_logs.py:65-66 | replacing a character by its escape leaves every occurrence escaped |
| Strings.EscapeKeepsEscaped | process_logs.py:66 | escaping one character keeps another one escaped |
| Strings.Split | logs/process_logs.py:190 | there is always at least one part |
| Strings.SplitHead | cwc_integ_app.py:191 | the first part of a split is the text up to the first separator, and the whole text when there is none |
| Strings.SplitPartsHaveNoSeparator | cwc_integ_app.py:191 | no part contains the separator |
| Strings.SplitCountsSeparators | logs/get_logs.py:74 | there are two or more parts iff the separator occurs |
| Strings.JoinSplit | get_logs.py:42-43 | joining the parts gives the text back |
| Strings.SplitJoin | logs/process_logs.py:198-199 | splitting joined parts that have no separator gives the parts back |
| Strings.DropLastSegmentSpec | get_logs.py:42-43 | the text is what is kept, the separator and the last part |
| Strings.LStrip | logs/process_logs.py:312 | a suffix of the text, with only the stripped character removed and not at its head |
| Strings.IndexOf | logs/process_logs.py:196 | the first position of the element |
| Strings.PathJoin | log_browse_service/api.py:23 | ends with the second path; an absolute second path replaces the first |
| Strings.Basename | logs/get_logs.py:152 | the last component, which has no '/' |
| Strings.Pad | cwc_integ_app.py:45 | exactly w digits |
| Strings.NatToStringValue | app.py:36 | the decimal text reads back as the number |
| Strings.LexLeTotal | get_logs.py:25 | any two strings are ordered |
| Strings.LexLeTransitive | get_logs.py:25 | the string order is transitive |
| Strings.LexLeAntisymmetric | get_logs.py:25 | the string order is antisymmetric |
| Strings.MaxOf | get_logs.py:25 | a member that is greatest in the string order |
| Strings.FilterMembers | get_logs.py:22 | the kept elements are exactly those that satisfy the predicate |
| Strings.FilterFilter | logs/process_logs.py:44-50 | filtering twice is filtering by both tests |

## Left out

- Mongo, Docker and S3 are in-memory state: the `Service` fields and the
  `Runtime.Host` object. Every `update_one` filter is assumed to match its
  document, and no other writer changes the stores between two calls.
- Concurrency is not modelled. Two concurrent launches can race on the
  session count and on the port document, and the model runs one request at
  a time.
- Regular expressions, XML, KQML and tar extraction are inputs to the model:
  - the fields of a parsed log line are record fields;
  - the SPG heartbeat dates are the container's `heartbeats`;
  - the facilitator log's sections are `sections`;
  - the log key pattern is `matchName`;
  - the extracted facilitator log is `facilitatorLog`.
- `read_fix_log` (process_logs.py:17-41) is not modelled; its result is the
  input `Log`.
- In `get_dialogue_datetime`, `mktime`/`strptime` is taken as the input
  `Log.start`, and `None` stands for the ValueError.
- Upper case, lower case and strip handle ASCII only.
- Typos are modelled as intended: `MY_CONAINER_LIST` (cwc_integ_app.py:35),
  `aciton` (line 68) and the undefined `client` (line 92).
- Printing, logging, HTML templates, pdfkit, the index route, the WTForms
  forms and `main` are not modelled.
- `process_logs_from_s3` (process_logs.py:177-211) and `main` (214-227)
  are not modelled, because they are S3 and file plumbing around the
  export.
- From logs/process_logs.py, the following are not modelled because they are
  presentation or file output: `make_html`, `make_header`,
  `CwcLog.make_html`, `get_start_time`, the file writing and pdf conversion
  of `export_logs`, `main`, and the check for an image stash.
- `get_logs` in logs/get_logs.py (lines 111-127) is not modelled. It calls
  `get_logs_for_container` without the interface argument that function
  requires, so it can only raise a TypeError.
- util.py, aws_util.py and shutdown.py are not part of this model.
- Dict iteration order is not modelled. The registry loops are proved for
  every order in which the keys can be taken.
- The clock (`datetime.utcnow`) is the `Service` field `now`.
- ExportTarget: for the pdf default it states only that the target no longer
  contains "html", not its exact name.
- Ports.Issued: states only the number of ports issued; their values are
  stated by the lemmas about it.
- LogsGetLogs.HarvestTask: states that one upload is made under the
  prefixed key, without stating its body.
- LogsGetLogs.GetLogsForContainer: states the keys and the bucket of the
  uploads, not their bodies.
- CwcIntegApp.Service.StopSession: states when it succeeds, the answer,
  the container's removal, the registry file and the count, but not the
  harvest or the daemon events (StopContainer states those).
- Dates are parsed only in their zero-padded, fixed-width form. Python's
  `strptime` also takes one digit for the month, day, hour, minute and
  second (for example "2020111000000" as 2020-11-10 00:00:00, or "1:02:03"
  for `%H:%M:%S`). The service itself writes only padded dates, so a file
  with unpadded ones would have to be edited by hand. The members below are
  therefore stricter than the program on such text, each in the same way:
- Parse14: rejects `%Y%m%d%H%M%S` text with a single-digit field, which
  `strptime` accepts.
- ParseIso: rejects ISO text with a single-digit field, which `strptime`
  accepts.
- ParseClock: rejects `%H:%M:%S` text with a single-digit field, which
  `strptime` accepts.
- FormatParse: the round trip from text holds for padded text only; in
  Python an unpadded date is written back padded.
- LoadDump: a file is written back unchanged only because unpadded dates do
  not load in the model; in Python such a file loads and is rewritten
  padded.
- LoadIdDict: raises ValueError on an unpadded start time that Python
  would load.
- GetTimestamp: raises ValueError on an unpadded `T` attribute that Python
  would parse.
- CheckContainer: the heartbeat dates are taken from the container's logs
  as text. As written, `cont.logs()` returns bytes, and `re.findall` with a
  text pattern on bytes raises TypeError (`cwc_integ_app.py:93-94`); the
  model follows the evident intent of decoding the logs first.
- CheckTimers: the harvested files and uploads of a sweep that stops
  several containers are not stated, because they depend on the order in
  which the registry is visited; each StopContainer call states its own.
- Cleanup: the harvested files and uploads of the containers torn down are
  not stated, for the same reason as CheckTimers.

## Findings

| source | as written | input that shows it | evidently intended | confidence | as-written member | corrected member |
|---|---|---|---|---|---|---|
| cwc_integ_app.py:100-101 | the reaper compares `timedelta.seconds`, which is always below one day, with `DAY` and `5*DAY`, so no session is ever reaped | now = 2020-01-03 00:00:00, with both the last heartbeat and the start at 2020-01-01 00:00:00 | compare the whole elapsed time (`total_seconds()`) | not executed | CwcIntegApp.TimedOutAsWrittenMissesSilentSession | CwcIntegApp.TimedOutMonotone |
| cwc_integ_app.py:135-154 | with no sessions document, `increment_sessions` and `decrement_sessions` reset the document and then index the stale `None`, raising TypeError | an empty `sessions` collection | count from the freshly reset zero | not executed | CwcIntegApp.MissingSessionsDocRaises | CwcIntegApp.Service.IncrementSessions |
