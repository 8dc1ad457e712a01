# Control-plane protocols

The repository is a control plane for game servers: a controller that sends commands to Agents,
and Agents that carry them out next to the game processes. This project models the parts of it
where order, failure and restarts matter, and proves what holds of them in every run.

* **Operation journal** (`Journal`, `JournalRuns`, `JournalStore`, `JournalMethods`, `PrivateFile`,
  `ConsoleHazards`). Two families of operations share one fencing token and lease per room. The journal
  is saved as one file; a save can succeed, fail with the old file in place, or fail with the new file
  already in place, and the process can die at any point. `Journal` holds the two operations as
  functions on values, `JournalRuns` every interleaving of them with all save outcomes and restarts and
  the theorems about what was let through to execution, `JournalStore` the same operations on heap
  objects as the Agent keeps them, `JournalMethods` that these are runs of the machine, and
  `PrivateFile` the replacement of the file that gives the three outcomes.
* **Live reload** (`RuntimeHost`, `HostMethods`, `Application`, `HostApplications`). Requests, the
  reload barrier, closing the old application, starting the next one, rollback and restore.
  `RuntimeHost` is the machine with one step per critical section, `HostMethods` the host's methods in
  their own order, with other goroutines' steps in between, `Application` the hooks and workers of one
  generation, and `HostApplications` why the machine may describe a generation as it does.
* **Command results** (`CommandResults`, `CommandMethods`). Replies, progress, clean-up and waiters
  with lazily made notification channels; as a machine, and as handlers that update records in place.
* **Command admission** (`Admission`, `AgentMethods`). Two bounded queues, six workers, the pending
  counter and the two pauses; as a machine, and as the Agent's methods.
* **Mod upload and extraction** (`ModUpload`, `ModArchive`). A resumable upload that may stop at any
  disk step, and the unpacking of an archive whose entry names are not trusted.
* **Process search** (`ProcessSearch`), **scheduled commands** (`CronCommand`), **split downloader**
  (`Downloader`, byte ranges as in section 14.1.2 of RFC 9110) and **mod references** (`ModReference`).

Where the code falls short of what one would expect, the exact condition is proved:

* A failing send looks for its record unchecked, with the command mutex locked. The record is missing
  exactly when a clean-up dropped it and no reply put it back (`CommandResults.RecordMissing`), which a
  clean-up can do to any command under way: it goes by the end time, which such a command does not have
  yet, although it is meant to keep the last seven days (`CommandResults.CleanupDropsUnfinished`). The
  server then panics and nobody gets the mutex again (`CommandResults.CrashesExactly`,
  `CommandResults.CrashStops`).
* The parser of scheduled commands panics exactly on the inputs of `CronCommand.PanicsExactly`.
* The downloader's ranges wrap around exactly when the file has fewer bytes than there are tasks
  (`Downloader.SplitCovers`). The download still comes out right (`Downloader.Downloader.Download`),
  because the wrapped lengths make the code refuse those parts.

Two hazards are those of a function alone, and its callers keep clear of them. A failed send does not
notify, and so strands exactly the waiters of `CommandResults.FailedSendStrands`; the callers of
WaitCommandResult wait for ids that were returned (internal/agents/legacy_transport.go:147 and 190,
internal/agents/service_logs.go:24). The journal lets two leases share token 0
(`JournalRuns.ZeroTokenSharesLeases`); both request validators refuse that token before the journal is
asked (agent/runtime_operations.go:226, agent/shard_operations.go:470).

## Model

| member | source | states |
|---|---|---|
| JournalRuns.Fencing | agent/shard_operations.go:173-220 | In every run of both families with any save outcomes and restarts, the tokens of operations let through in one room never decrease, equal positive tokens carry one lease, and memory and file both hold a token and lease that may follow each of them |
| JournalRuns.AtMostOnce | agent/shard_operations.go:173-254 | If one key is let through twice in a room and family, its record was evicted in between, and the execution had ended by then |
| JournalRuns.Repeat | agent/shard_operations.go:182-197 | Asking again for an operation whose record was not evicted runs nothing, changes nothing, and is answered by mismatch, outcome unknown, or the latest execution's own result marked idempotent; the last whenever that execution ended in this process |
| JournalRuns.FinishFindsRecord | agent/shard_operations.go:236-254 | An operation under way always has its unfinished record in memory and in the file, so finish never reports it missing |
| JournalRuns.OpenNeverLost | agent/shard_operations.go:264-285 | No unfinished record is lost in any run: it stays as it was, in memory and file, through failed saves, trimming and restarts until its own finish |
| JournalRuns.ZeroTokenSharesLeases | agent/shard_operations.go:198-203 | A run in which token 0 lets two leases through: the lease test is skipped for it |
| JournalRuns.RuntimeRetry | agent/runtime_operations.go:1212-1215 | In every run, retrying a runtime operation that is still remembered runs nothing and changes nothing, and is refused as another operation exactly when anything but the lease expiry differs from the request that ran, so also under a new lease or token |
| JournalRuns.ShardRetry | agent/shard_operations.go:182-197 | In every run, retrying a shard operation that is still remembered runs nothing and changes nothing, and is refused as another operation exactly when more differs than its id, topology revision, lease, token and lease expiry |
| ConsoleHazards.FamiliesMeet | agent/runtime_operations.go:1267-1275 | A shard and a runtime operation share a room, and so its token, exactly for one installation and one cluster in any case of letters, except that logins and mod operations have rooms of their own, which a cluster of that very name shares |
| JournalRuns.StepKeeps | agent/runtime_operations.go:1199-1265 | One step of either family, of initialization or a restart keeps the invariant: both tokens dominate, live operations have records, completed records tell how the latest execution ended, open records are in the file |
| JournalRuns.FinishKeepsDisk | agent/runtime_operations.go:1248-1265 | After a finish the file remembers truthfully whatever the save did, and a save that failed before the file was replaced leaves the operation there as an open record |
| JournalRuns.LastGrantDominates | agent/runtime_operations.go:1226-1232 | The latest grant of a room may follow every earlier one |
| JournalRuns.LiveUntilEvicted | agent/runtime_operations.go:1277-1298 | What was let through stays known until a finish evicts its record |
| JournalStore.ShardOperationState.BeginTicket | agent/shard_operations.go:173-220 | begin on heap tables is exactly the value model's step; unless it admits, the room table is the very map it was before, object for object |
| JournalStore.ShardOperationState.StoreRoom | agent/shard_operations.go:210-218 | Installing a room and saving: the file follows the save's outcome, and after a failure the old rooms are back |
| JournalStore.ShardOperationState.BeginRuntime | agent/runtime_operations.go:1199-1246 | beginRuntime is the same step on its room key, descriptor and fingerprint |
| JournalStore.ShardOperationState.FinishTicket | agent/shard_operations.go:236-254 | finish completes and trims the room's own table in place and saves; memory keeps the completion whatever the save's outcome; other rooms and the other family are untouched |
| JournalStore.CloneRoom | agent/shard_operations.go:222-234 | The clone equals the room and shares neither table with it |
| JournalStore.Trim | agent/shard_operations.go:264-285 | Evicts completed records only, oldest observation first, exactly as many as needed or as there are |
| JournalStore.TrimDone | agent/runtime_operations.go:1277-1298 | Dropping the first records in order of observation until the limit is met is such a trimming |
| JournalStore.SortByTime | agent/shard_operations.go:272-278 | The completed records in ascending order of observation, none lost |
| JournalStore.ShardOperationState.InitializeOwnership | agent/shard_operations.go:133-146 | The mark is set once and saved; a failed save takes it back, and rooms never change |
| JournalStore.ShardOperationState.Load | agent/shard_operations.go:99-125 | A new process holds exactly the rooms of the file, in tables of their own |
| JournalMethods.AgentJournal.Begin | agent/shard_operations.go:173-220 | On the heap: answers what the judgement of the state before it answers, and what is let through is under way and in the trace |
| JournalMethods.AgentJournal.Finish | agent/shard_operations.go:236-254 | An operation that this process let through never misses its record, and is saved only if the file was |
| JournalMethods.AgentJournal.RestartProcess | agent/shard_operations.go:99-125 | A new process starts from the file, with nothing under way |
| JournalMethods.RunOf | agent/shard_operations.go:99-262 | A journal that these methods brought to a state is in a run of the machine, so fencing and at-most-once hold of the heap objects |
| PrivateFile.Directory.WritePrivateFile | shared/private_file.go:14-58 | For an error or crash at any step: success means the new content, open to the current user only; a fault before or at the rename leaves every other file as it was; a fault after it leaves the new content, restricted, although an error is reported; and no stop leaves any of the data in a file open to others |
| ConsoleHazards.PendingConsoleHazards | agent/shard_operations.go:148-171 | Lists a (cluster, shard) pair for an installation if and only if one of its rooms records an unfinished console send there, and lists no pair twice |
| ConsoleHazards.IdentityInjective | agent/shard_operations.go:162-167 | The joined identity tells installation, cluster and shard apart, so deduplication drops nothing |
| ConsoleHazards.RoomKeyNamesInstallation | agent/runtime_operations.go:1267-1275 | The installation is read back from a room key |
| ConsoleHazards.InterruptedAfterRestart | agent/shard_operations.go:148-171 | In every run, a console send let through and not ended when the process dies is interrupted for its installation in the next process, whatever became of later saves |
| ConsoleHazards.ControlRegistry.RuntimeControl | agent/shard_operations.go:421-451 | A control is handed out if and only if the driver can be made and every recovery due succeeds; then all hazards listed for the installation were recovered through it; a refusal leaves all of them due |
| RuntimeHost.LiveGeneration | routers/runtime_host.go:56-212 | Whenever the host is neither reloading nor closed, its application is started, unclosed and runs the persisted configuration, and serves every request that did not itself ask for a transition |
| RuntimeHost.NoOverlap | routers/runtime_host.go:165-212 | In every run of the machine, workers of two applications never run at the same time; that closing and starting applications are steps of the machine is proved in the rows of HostApplications |
| RuntimeHost.BarrierExcludes | routers/runtime_host.go:84-120 | Past the barrier, and while a software restart holds it, the caller's request is the only active one and none can enter |
| RuntimeHost.LastDepartureWakes | routers/runtime_host.go:71-79 | A sleeping barrier whose caller is the last active request gets through in at most three steps: the one-slot signal of that departure is in the slot or on its way |
| RuntimeHost.FailureRestores | routers/runtime_host.go:161-187 | A transition that ends in an error leaves the configuration persisted when it began, run by a live application unless the host has closed |
| HostMethods.RuntimeHost.Apply | routers/runtime_host.go:122-187 | With requests and workers going on in between: success means the new configuration is persisted and a new live application runs it; failure leaves the persisted configuration as it was, run by a live application unless restoring failed, which closes the host; the barrier is as before |
| HostMethods.RuntimeHost.PastBarrier | routers/runtime_host.go:137-187 | Behind the barrier apply succeeds exactly when nothing refuses it, the configuration can be read back, the old application closes cleanly and the next one starts; otherwise the prior configuration is back |
| HostMethods.RuntimeHost.Barrier | routers/runtime_host.go:84-120 | The wait loop: success means the caller's request is the only active one; failure leaves the flag as it was |
| HostMethods.RuntimeHost.Drain | routers/application.go:123-132 | The wait for the workers ends with none running |
| HostMethods.RuntimeHost.Restore | routers/runtime_host.go:189-212 | A live application for the old configuration, or the host is closed; nothing persisted changes |
| HostMethods.RuntimeHost.PrepareSoftwareRestart | routers/runtime_host.go:214-233 | On success the caller's request stays the only one until the guard is released; on failure the barrier is as before |
| HostMethods.RuntimeHost.Close | routers/runtime_host.go:235-243 | The host is closed; with a context that does not end first, no worker of its application is left |
| HostMethods.RunOf | routers/runtime_host.go:122-243 | A host that any of these methods brought to a state is in a run of the step machine |
| Application.Application.Start | routers/application.go:60-97 | Succeeds exactly when the parent is live and every start hook succeeds; the first failing hook is followed by all stop hooks in reverse, and no worker is started |
| Application.Application.Close | routers/application.go:99-137 | Stop hooks in reverse unless a failed start ran them, then the wait for the workers, which with a background context ends with none, then final hooks in reverse, whatever any hook answers; success exactly when no hook that ran failed and no worker is left; a second Close does nothing |
| Application.Application.AwaitWorkers | routers/application.go:123-132 | The wait lets workers return one by one until none is left, or until a context that can end ends |
| HostApplications.CloseOldApplication | routers/runtime_host.go:165-167 | Closing the old application with a background context, whatever its hooks answer, is a run of the host machine through every worker's exit, and the machine then rolls back exactly when a hook failed |
| HostApplications.StartOrClose | routers/runtime_host.go:168-181 | Starting the next or the restored application, and closing it when that fails, is the machine's step; a failed start leaves no worker behind |
| HostApplications.CloseLastApplication | routers/runtime_host.go:235-243 | The host's own Close is a run of the machine, also when its context ends before the workers do |
| HostApplications.ExitsRun | routers/application.go:88-95 | Workers that return one by one are steps of the machine |
| CommandResults.NoLostWakeup | server/server.go:1594-1639 | In every run, for every id: a parked waiter can wake if and only if its record is gone or no longer holds the captured channel; and unless the id's send failed, if and only if its result is no longer as captured: finished, progressed or gone |
| CommandResults.ReturnedIsNotRefused | server/server.go:1044-1122 | In every run an id that sendCommandPayload returned is not among those that failed, so the two rows around this one hold for it |
| CommandResults.FinishedResultIsReturned | server/server.go:1600-1631 | A waiter parked on a finished result wakes, and if and only if the server has not crashed it can look again, and then returns that result's status |
| CommandResults.CallbackSequences | server/server.go:1616-1619 | The callback sees strictly increasing sequences, and the last it saw is the progress of the result returned |
| CommandResults.ResultsAdvance | server/server.go:648-693 | In every run a finished result never becomes pending or received again and its progress stops; stored progress never goes back |
| CommandResults.MessageEffect | server/server.go:791-848 | One message: progress moves forward only and before the end only, a result keeps its agent, and another agent's message changes nothing |
| CommandResults.FailedSendStrands | server/server.go:1078-1119 | In every run a send that fails leaves a finished result, and strands exactly the waiters parked on it with their channel open |
| CommandResults.RefusedSendLosesWakeup | server/server.go:1078-1119 | A run that strands a waiter, who waits for an id before it is returned |
| CommandResults.RecordMissing | server/server.go:1692-1699 | In every run a command's record is missing if and only if since it was made a clean-up with a cutoff after its end time, 0 while it has none, came and no reply after it; end times are those told by the messages before |
| CommandResults.UnansweredSend | server/server.go:1078-1119 | In every run a send that fails without any answer having come finds its record if and only if no clean-up with a positive cutoff has come since the record was made |
| CommandResults.StepsTell | server/server.go:648-848 | The messages and clean-ups so far tell whether there is a record, whose it is and when it ended |
| CommandResults.CrashesExactly | server/server.go:1078-1119 | The server panics with the command mutex locked if and only if a send failed after a clean-up dropped its record with no reply putting it back |
| CommandResults.CrashStops | server/server.go:1078-1119 | From then on no record changes and no channel closes, so a waiter parked with its channel open wakes no more |
| CommandResults.CleanupCrashesSend | server/server.go:1688-1699 | The shortest such run: a clean-up between the record and the failing send |
| CommandResults.StepKeeps | server/server.go:1634-1704 | Every step keeps channels open, unshared and owned by one result, and every parked waiter's claim on its channel |
| CommandResults.CleanupDropsUnfinished | server/server.go:1688-1699 | In every run a clean-up with a positive cutoff drops a record exactly when it ended before the cutoff or is still under way, and wakes whoever is parked on the latter |
| CommandMethods.Server.HandleCommandAck | server/server.go:648-676 | On records updated in place, exactly the machine's step |
| CommandMethods.Server.HandleCommandProgress | server/server.go:678-693 | Exactly the machine's step: the record takes the sequence and its channel is closed |
| CommandMethods.Server.HandleCommandResponse | server/server.go:791-848 | Exactly the machine's step, also for a reply without a record |
| CommandMethods.Server.FailCommand | server/server.go:1109-1119 | Exactly the machine's step: the record fails and nobody is notified, and without a record the server panics with the mutex locked |
| CommandMethods.Server.WaitTurn | server/server.go:1600-1622 | Exactly the machine's step: result, channel and progress are captured together |
| CommandMethods.Server.CleanupCommandResults | server/server.go:1680-1704 | The sweep that deletes while it iterates is the machine's one step: stale records gone, their channels closed, the rest unchanged |
| Admission.PendingConserved | agent/agent.go:732-779 | The pending counter is the commands queued or held by workers, less the one being inserted, plus those dropped at the stop; never negative and at most 32+64+6 |
| Admission.PausesExclude | agent/agent.go:783-791 | Under the idle pause nothing is queued or held; under the software guard the one command held is the one that asked for it |
| Admission.RunsOnce | agent/agent.go:740-751 | A command is executed at most once, and only after it was acknowledged |
| Admission.WorkerBound | agent/agent.go:732-754 | Workers never hold more commands than there are workers left |
| AgentMethods.Agent.EnqueueCommand | agent/agent.go:760-779 | Accepts exactly when not paused, not stopped and the queue has room, and then counts one command, although a worker may have taken it in between; a refusal changes nothing |
| AgentMethods.Agent.DispatchCommand | agent/agent.go:801-825 | Accepts exactly when enqueueing does; an accepted command is counted and acknowledged, a refused one leaves no trace and is answered by a rejection and a failed response |
| AgentMethods.Agent.PauseCommandsIfIdle | agent/agent.go:783-791 | Pauses exactly when nothing is pending, and then nothing is queued or held |
| AgentMethods.Agent.GuardRestart | agent/software_update.go:17-30 | Grants exactly when one command is pending and no login is busy, and then the caller's own command is the only one |
| ModUpload.UploadStore.Begin | agent/mod_operations.go:1004-1051 | Stopped anywhere, the disk stays lawful; a staged file without a state is a conflict for good; another descriptor is refused; otherwise the reply tells the recorded offset, which is the staged length |
| ModUpload.UploadStore.Write | agent/mod_operations.go:1053-1092 | Stopped anywhere, or torn, the staged file stays a prefix of the content; an accepted chunk leaves exactly the content up to its end staged and recorded |
| ModUpload.UploadStore.Commit | agent/mod_operations.go:1094-1141 | An upload becomes committed only when the whole content was staged and imported, and then succeeds if nothing stops it |
| ModUpload.UploadStore.Load | agent/mod_operations.go:1561-1588 | What was staged beyond the recorded offset is adopted; nothing else changes |
| ModUpload.UploadStore.HistoryPair | agent/mod_operations.go:1004-1141 | Between any two disk states of any session: committed stays, staged bytes are only added, and a commit lies after a state with the whole content staged |
| ModUpload.UploadStore.Resume | agent/mod_operations.go:1004-1141 | A client that meets no more stops finishes any upload whose state file exists |
| ModUpload.Session | agent/mod_operations.go:1004-1141 | Any calls, each stopping anywhere, from an empty disk: every disk state on the way is lawful |
| ModArchive.ExtractModArchive | agent/mod_operations.go:1443-1530 | Succeeds exactly on an archive with at most 100000 safe, distinct entries, some file, no special entry and at most 64 GiB, when no file operation fails; files then are the archive's, each at a path of its own within the root; the 64-bit sum never overflows |
| ModArchive.SafeExactly | agent/mod_operations.go:1532-1539 | A name is accepted exactly when it has no NUL or backslash and is "./" or made of ordinary components with at most one trailing slash |
| ModArchive.WithinExactly | agent/runtime_installations.go:281-284 | For any two paths the relative-path test holds exactly when both are absolute or both relative, the root's components come first and no parent step follows them |
| ModArchive.WithinRooted | agent/runtime_installations.go:281-284 | Of absolute paths it is containment of components |
| ModArchive.TargetInside | agent/mod_operations.go:1476-1484 | An accepted entry's path is the root's components followed by its own |
| ModArchive.TargetsDiffer | agent/mod_operations.go:1476-1482 | Different accepted names have different paths |
| ModArchive.CleanPartsShape | agent/mod_operations.go:1532-1539 | Cleaning leaves parent steps, only in a relative path, and then ordinary components |
| ModArchive.FilesDiffer | agent/mod_operations.go:1443-1530 | No two files of an accepted archive share a path |
| ProcessSearch.ConsoleGameDescendant | tmux/console_process.go:15-61 | Ends within 96 system calls and never holds more than 32 processes; true only for a matching game process on a launcher chain of at most 8; true whenever the launcher tree has at most 32 readable processes, time suffices and a match lies within depth 8 |
| ProcessSearch.ConsoleWorldArgumentsMatch | tmux/console_process.go:63-74 | True exactly when the last values given for both flags are the wanted ones |
| ProcessSearch.PushKeepsFresh | tmux/console_process.go:52-58 | In a tree, queueing a launcher's children repeats nothing queued or seen |
| ProcessSearch.ChildrenFit | tmux/console_process.go:52-55 | In a tree of at most 32 processes the budget never turns children away |
| ProcessSearch.TrackedExpands | tmux/console_process.go:25-58 | A process on the wanted chain that does not match is a launcher, and the next on the chain is among its children |
| CronCommand.PrintThenParse | cron/manager.go:715-789 | For a registered trimmed name without "(" and any 64-bit integers, booleans and strings free of double quotes, parsing the printed command gives back the name and the list |
| CronCommand.PanicsExactly | cron/manager.go:792-817 | The parser panics exactly on a well-formed command to a registered function whose last argument, trimmed, is a lone double quote |
| CronCommand.LoneQuotePanics | cron/manager.go:792-817 | One such command |
| CronCommand.PrintCommand | models/cron_function.go:17-34 | The appending loop prints the name, and the values separated by a comma and a space, strings in double quotes |
| CronCommand.ParseCommand | cron/manager.go:715-789 | The character loop computes the fields and values of the scan specification, with its errors and its panic |
| CronCommand.ScanPrinted | cron/manager.go:749-775 | Reading printed arguments splits them at exactly the printed commas, whatever the strings contain |
| CronCommand.AtoiReadsDecimal | cron/manager.go:799-802 | A printed 64-bit integer is read back |
| CronCommand.PrintedFrame | cron/manager.go:715-742 | The frame of a printed command passes the checks and gives back name and arguments |
| Downloader.SplitCovers | models/down.go:56-86 | The ranges are non-empty, in order, disjoint and cover the file if and only if the file has at least as many bytes as there are tasks |
| Downloader.JoinedReaches | models/down.go:145-172 | What a merge of the first parts writes is the file up to the end of their ranges if all arrived, and shorter than that otherwise |
| Downloader.Downloader.Download | models/down.go:56-106 | With a fresh downloader, any positive number of tasks, any reported length or none, and any requests and writes failing: it succeeds if and only if the file is as long as reported, the needed parts arrived (all; with fewer bytes than tasks only the last; of an empty file none) and everything could be written; then the output is that much of the file, and with the true length reported success and an output equal to the file are the same |
| Downloader.MergedIsFile | models/down.go:145-172 | Merging what the requests left is never longer than the reported size, and as long exactly when the file is and the needed parts arrived; then it is that much of the file |
| Downloader.KeptOfFew | models/down.go:137-142 | With fewer bytes than tasks the wrapped ranges leave nothing, because their length reads as 0, and the last range is the whole size |
| Downloader.Downloader.DownloadPart | models/down.go:108-143 | A body of the wrong length is refused and the part stays as it was |
| Downloader.Downloader.Merge | models/down.go:145-172 | Writes the parts in order, a prefix of them when a write fails, and succeeds exactly when the file could be made, every part written, and their 64-bit total is the file size |
| Downloader.FewBytesDoNot | models/down.go:62-72 | With fewer bytes than tasks the first range runs past the file |
| ModReference.ReadsBack | shared/mod_reference.go:43-74 | Whatever is accepted, as directory name or as id, reads back the same both ways |
| ModReference.Bijection | shared/mod_reference.go:43-74 | Ids and directory names of references determine each other |
| ModReference.SourcesApart | shared/mod_reference.go:53-74 | A "local:" id never denotes a workshop mod, and digits never a local one |
| ModReference.ParseModReference | shared/mod_reference.go:53-74 | The digit scan and the early returns compute the parse specification |

## Left out

- HostMethods.RuntimeHost.Apply: does not tell whether the barrier is passed, because that depends on when other requests leave; `HostMethods.RuntimeHost.PastBarrier` says exactly when the rest succeeds.
- Downloader.Downloader.Download: asks for at least one task, because the code divides by their number, and for a server that answers a range with the bytes it has of it; a downloader that has been used before, and a server that ignores ranges, are not modelled.
- ModUpload.UploadStore.Begin: makes no promise that an upload can start after a crash between making the staged file and writing the state file, because a later begin then reports a conflict; the contract states that conflict.
- CronCommand.PrintThenParse: does not cover floating-point values, because formatting and parsing them belongs to the standard library; the library's parser is a parameter that rejects the words "true" and "false".
- ProcessSearch.ConsoleGameDescendant: its second promise is for process trees only, in which every process has one parent, as the operating system's are; the first holds of any graph.
- ConsoleHazards.PendingConsoleHazards: asks that cluster names hold no NUL, which request validation ensures; `ConsoleHazards.CleanRun` carries that through every run.
- Host, command results and admission are machines over values with one step per critical section, because their point is interleaving; `HostMethods`, `CommandMethods` and `AgentMethods` tie the methods of the code to their steps. Worker goroutines appear there section by section, not as one endless loop.
- Request validation and the action-specific payloads: a shard request has all its fields but the protocol version, a runtime request the fields that the journal looks at and one opaque payload.
- SHA-256 digests and fingerprints are taken to be injective, JSON and file encodings to be the identity; strings are sequences of characters, so names that are not valid UTF-8 do not occur. Lower-casing is for ASCII letters, and the process search reads base names that are lower-case already.
- Fencing tokens and progress sequences are natural numbers: they are only compared.
- Settings are numbers; rollback of the persisted configuration is taken to succeed, and persisting to be atomic. The software, reload and restart checks of an application either refuse or let the transition pass, and their resume functions are not modelled. Cancelling read requests at the barrier only makes them leave sooner.
- A second Start after a failed one is not part of the host's runs; `Application.Application.Close` states what it would do: the stop hooks are not run again.
- A function that releases a pause or barrier is called once. The restart guard of an Agent is asked for by a running command.
- Directories, free space, gzip, tar headers and the context of an extraction are one answer per entry: it works or it does not.
- Key rotation, expiry of connections, the scheduler's entries, log statistics, HTTP and WebSocket plumbing, the database, metrics and the installation of games and runtimes.
