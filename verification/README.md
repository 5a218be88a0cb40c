# Verified models of icode's ownership, parsing and launch code

This project models the parts of the repository whose correctness spans many steps, and proves
properties of them for every input, every run and every interleaving.

- **Loopback-exemption coordinator** (`Ledger`, `Protocol`, `LedgerSteps`, `LedgerFacts`, `Transcript`,
  `Coordinator`, `WholeRuns`, `Attainable`). A durable ledger moves from frozen to cleaned while child processes
  change a table shared with the whole system. A run is a sequence of events: the ledger reached
  the disk, a child was resumed, the child changed its entry, another writer changed the table, no
  child is left, a request slot was handed out. `Protocol.Guard` says when an event may follow a
  world, `Ledger.Accepted` is the source's validator, and the class `Coordinator.Admin` is the
  source's control flow, field by field and flush by flush, with every native call free to fail. Its
  methods are proved to emit legal runs only; `WholeRuns` states what every legal run guarantees.
  A crash is a run cut short anywhere, and `Campaign` strings crashes and recoveries together.
  `Admin.asked` lists what the source asks of the system, in order, and `Admin.troubles` counts the
  answers that did not help: an operation that goes through asked exactly the questions `Transcript`
  gives for it, and one that fails met trouble or one of the conditions its contract names.
- **SID text and the table snapshot** (`Sid`, `Snapshot`): the worker's printer and the
  coordinator's parser as exact inverses, and the ownership of the memory the query returned.
- **Linux launcher** (`SeccompFilters`, `Descriptors`, `QuotaText`, `TaskQuota`,
  `ResourceChannel`, `Launch`): the two filter arrays under the kernel's interpreter, descriptor
  closing, the cgroup lifecycle over a kernel whose every call may fail and which keeps a list of its
  refusals, the frames, and the three
  processes as an interleaving transition system.
- **Portable Executable inspection** (`PeReader`, `PeFormat`, `PeDirectories`, `PeResources`): bounded
  headers and sections, the same file written field by field, the RVA mapping, import and delay-import
  tables, and the resource tree.
- **Monitors and small loops** (`TraceMonitor`, `AceNormalization`, `AclWalk`, `OwnedHandles`,
  `BoundedCollection`).

`dafny verify dfyconfig.toml` checks everything.

## Assumptions the models make explicit

- The coordinator's clock is monotonic, also across a restart of the coordinator (the source reads
  a monotonic clock; a reboot between sessions is outside the model).
- `CheckNetIsolation` sets or removes the one entry it is given and no other. Anybody else who
  writes the table is a `Foreign` event: every safety property but equality of the table itself
  holds with any number of them, and equality is claimed for runs without them.
- A worker report that passes `_mapping` lists the table as it was while the worker ran.
- The quota's scope is exclusively delegated, so names inside one call do not change under it;
  between calls they may.
- A leaf whose opening or first inspection failed right after `mkdirat` stays behind, as in the source: its
  handle or its identity is not known. `Quota.Prepare` says so.
- A text the kernel returns from a cgroup file may be anything, but not untrue about emptiness,
  membership or the limit.

## Where the source does less than its description

FINISHED does not always imply that no failure byte was written. `Launch.FinishedRulesOutMarker` gives
the exact condition over what the launcher has seen: the error pipe was read, or init was reaped with
status 0; `Launch.UnheardMarker` gives a run for every other case. That theorem assumes nothing about
why a read fails. A pipe that does not block fails to be read only while it is empty and its writing
end may still be held; for runs over such a pipe `Launch.FinishedRulesOutMarkerInPipe` shows that
reaping init, with whatever status, is enough.

## Model

| member | source | states |
|---|---|---|
| `WholeRuns.EveryLedgerAccepted` | scripts/windows_positive_loopback_admin_native.py:169-359 | Every ledger that ever reaches the disk, at every point of every run of any number of sessions, passes the whole validator; no reachable run is later rejected by its own check |
| `WholeRuns.WriteAhead` | scripts/windows_positive_loopback_admin_jobs.py:151-161 | If an addition was ever allowed to run, then at that moment and at every later one the disk holds owned intent, the operation, two equal baselines without either SID, and that record with permission and an attempt that is not denied |
| `WholeRuns.NotAttemptedMeansNever` | scripts/windows_positive_loopback_admin_jobs.py:208-216 | A durable "not attempted" beside a durable permission means the process runs at no point of the run, before or after, whoever recovers |
| `WholeRuns.AtMostOneAddition` | scripts/windows_positive_loopback_admin_native.py:216 | Over all crashes and recoveries at most one addition process ever runs |
| `WholeRuns.ServedAtMostOnce` | scripts/windows_positive_loopback_admin_native.py:1085-1097 | Each request slot is handed out at most once, after its consumption is durable |
| `WholeRuns.DeletesOnlyItsOwn` | scripts/windows_positive_loopback_admin.py:350-370 | A deletion runs only for the positive SID (never `reviewer_sid`), after a durable attempt to add it, when both baselines lack it and the newest observation holds it, with the attributes recorded after the addition if any were |
| `WholeRuns.FirstErrorStays` | scripts/windows_positive_loopback_admin.py:209-219 | A durable first error never changes and forbids a claim of exact restoration for the rest of every run |
| `WholeRuns.RestorationIsTrue` | scripts/windows_positive_loopback_admin.py:375-383 | A durable claim of exact restoration implies no live child, no error, completion inside the operation window and equal observations; if no other writer touched the table, the table is the original one |
| `WholeRuns.SuccessWithdrawnFirst` | scripts/windows_positive_loopback_admin.py:325-332 | No child is resumed, and none changes the table, while the disk still claims success |
| `WholeRuns.OtherEntriesUntouched` | scripts/windows_positive_loopback_admin_native.py:68-69 | Without another writer every table entry except the operation's own keeps its value at every moment |
| `Attainable.ExactRestorationIsAttainable` | scripts/windows_positive_loopback_admin.py:243-396 | The protocol is not safe by doing nothing: for every fresh prepared ledger, every bootstrap and clock values that fit it and every table without the two SIDs that the worker can report, it permits a run that adds, verifies, removes and ends in a true durable claim |
| `Protocol.StepKeeps` | scripts/windows_positive_loopback_admin_native.py:169-359 | Every event keeps the reachable-state invariant |
| `Protocol.ReachableSound` | scripts/windows_positive_loopback_admin_native.py:169-359 | The invariant holds after every legal run from a fresh ledger |
| `Protocol.DurableFollows` | scripts/windows_positive_loopback_admin_native.py:169-359 | Between any two points of a run the disk only moves forward: records, identities, errors and the frozen operation never go back |
| `LedgerSteps.ParentAttached` | scripts/windows_positive_loopback_admin_native.py:881-890 | Attaching the parent keeps the ledger acceptable and truthful |
| `LedgerSteps.BootstrapDerived` | scripts/windows_positive_loopback_admin_native.py:896-909 | So does recording the derived bootstrap |
| `LedgerSteps.BoundToParent` | scripts/windows_positive_loopback_admin.py:206-207 | So does entering `bound` |
| `LedgerSteps.Failed` | scripts/windows_positive_loopback_admin.py:209-219 | So does recording a failure, from every ledger |
| `LedgerSteps.CleanupFailedToo` | scripts/windows_positive_loopback_admin.py:393-396 | So does the failure the cleanup handler records on top |
| `LedgerSteps.ReadingTaken` | scripts/windows_positive_loopback_admin_native.py:1127-1131 | So does noting one more table read |
| `LedgerSteps.OperationFrozen` | scripts/windows_positive_loopback_admin_native.py:1062-1078 | So does freezing the operation over an unowned baseline |
| `LedgerSteps.IntentRecorded` | scripts/windows_positive_loopback_admin.py:269-273 | So does the intent, given that the baseline is what the table was |
| `LedgerSteps.AdditionVerified` | scripts/windows_positive_loopback_admin.py:290-297 | So does the claim that exactly the owned entry was added |
| `LedgerSteps.SuccessWithdrawn` | scripts/windows_positive_loopback_admin.py:325-331 | So does withdrawing success before a new cleanup pass |
| `LedgerSteps.CleanedUp` | scripts/windows_positive_loopback_admin.py:375-383 | So does the end of a cleanup pass, exact or not |
| `LedgerSteps.CommandAllocated` | scripts/windows_positive_loopback_admin_jobs.py:93-101 | So does appending a command record |
| `LedgerSteps.RecordChanged` | scripts/windows_positive_loopback_admin_jobs.py:151-161 | So does any permitted change to one command record |
| `Coordinator.Campaign` | scripts/windows_positive_loopback_admin.py:421-435 | Any number of coordinators over one ledger, each cut short after any event and recovered by the next, together make one legal run, and the validator accepts the ledger on disk after every event of it |
| `Coordinator.Admin.Reopen` | scripts/windows_positive_loopback_admin_native.py:611-618 | A coordinator can take over whatever a crash left, including a child that still runs |
| `Coordinator.Admin.Emit` | scripts/windows_positive_loopback_admin_store.py:109-125 | Each event is checked against its guard and appended to the run |
| `Coordinator.Admin.Flush` | scripts/windows_positive_loopback_admin_store.py:109-125 | A flush that returns has written the ledger; one that raises may have written it or not; nothing else makes it raise |
| `Coordinator.Admin.VerifyStore` | scripts/windows_positive_loopback_admin_native.py:620-626 | Success exactly when memory equals the disk and the system answered; the validator itself never refuses |
| `Coordinator.Admin.Failure` | scripts/windows_positive_loopback_admin.py:209-219 | The first error stays, the claim of restoration goes |
| `Coordinator.Admin.Argv` | scripts/windows_positive_loopback_admin_jobs.py:59-83 | A command line is built exactly when `Commandable` allows it and an addition is before its deadline: owned intent, an operation, two different SIDs, the positive one a package SID, and `add_intent` without an earlier addition or `cleanup_intent` |
| `Coordinator.Admin.RunFixed` | scripts/windows_positive_loopback_admin_jobs.py:86-228 | At most one record is appended; a returned record is durable, reaped and resumed exactly as recorded, with nothing left running, after every step of `Transcript.Child` in order; it fails only if the system did not help or a named condition on ledger or clock did not hold |
| `Coordinator.Admin.CreateOutput` | scripts/windows_positive_loopback_admin_jobs.py:99 | A new output file is noted in the ledger whenever it was written, and possibly when the call failed |
| `Coordinator.Admin.RunChild` | scripts/windows_positive_loopback_admin_jobs.py:107-182 | A child counts as started exactly when it was created, so that the cleanup of the run stops it |
| `Coordinator.Admin.Allocate` | scripts/windows_positive_loopback_admin_jobs.py:93-101 | The first record of a command: not resumed, on disk before any process exists |
| `Coordinator.Admin.Admit` | scripts/windows_positive_loopback_admin_jobs.py:146-158 | Permission to resume is durable before it is used, and an addition is resumed only before its deadline; no other reason refuses it |
| `Coordinator.Admin.ResumeAndWait` | scripts/windows_positive_loopback_admin_jobs.py:159-182 | From the durable permission to the durable end of the child: wait, empty the job, read the exit code, write; with a helpful system the child exited 0 and did what it was started for |
| `Coordinator.Admin.FinishRun` | scripts/windows_positive_loopback_admin_jobs.py:183-228 | The cleanup of a run: a clean end changes nothing, a failed one that was released stopped a started child and leaves exactly the stated record, anything else is recorded as unknown |
| `Coordinator.Admin.FullGet` | scripts/windows_positive_loopback_admin_native.py:1114-1131 | A report that is returned was complete, durable, listed the table as it was, and is noted with its command and its two clock values; it fails only if the system did not help, memory was not durable or no room was left |
| `Coordinator.Admin.ReadView` | scripts/windows_positive_loopback_admin.py:221-226 | One observation is replaced, the others and the rest of the ledger stay; the failing cases are those of `FullGet` |
| `Coordinator.Admin.ReapCommands` | scripts/windows_positive_loopback_admin_native.py:1009-1047 | Success exactly when memory equals the disk and every command in turn was answered for: no recorded child is left that could change the table, and a command without a process was passed over only with its job found empty |
| `Coordinator.Admin.Command` | scripts/windows_positive_loopback_admin_native.py:1133-1139 | A mutating command starts only after the store, the tool and every earlier command were checked, in that order; every reason to refuse is stated |
| `Coordinator.Admin.AttachParent` | scripts/windows_positive_loopback_admin.py:189-207 | Success is a durable, published `bound` ledger for exactly that parent after every step of `Transcript.Attached`; any other phase is refused unchanged; a ledger that can be attached is, if the system helps |
| `Coordinator.Admin.PrepareReadonly` | scripts/windows_positive_loopback_admin_native.py:1161-1198 | The read-only preparation and the one child it runs change one command record, its file and the flag, and nothing else; success needs a child that ended by itself with exit code 0 |
| `Coordinator.Admin.VerifyParent` | scripts/windows_positive_loopback_admin_native.py:957-974 | Success exactly when memory equals the disk, a parent is bound and prepared for, and the system finds it alive in its job |
| `Coordinator.Admin.ParentOnly` | scripts/windows_positive_loopback_admin_native.py:976-984 | The same, and the parent is alone in its job |
| `Coordinator.Admin.TakeRequest` | scripts/windows_positive_loopback_admin.py:228-241 | A slot is consumed on disk before its bytes are judged, and only in its phase; a request is taken exactly when the ledger admits it and the system helps, after the parent was checked twice |
| `Coordinator.Admin.Baselines` | scripts/windows_positive_loopback_admin.py:251-263 | Success means two equal durable baselines without either SID; over a table without them that nobody else writes, a helpful system always leads there |
| `Coordinator.Admin.FreezeOperation` | scripts/windows_positive_loopback_admin_native.py:1062-1078 | The operation is durable before it is published; the parent is checked first |
| `Coordinator.Admin.StartOperation` | scripts/windows_positive_loopback_admin_native.py:1072-1076 | The frozen operation is the bootstrap's identity over exactly 60 seconds from the clock reading |
| `Coordinator.Admin.Created` | scripts/windows_positive_loopback_admin.py:243-305 | Success means the durable ledger proves the addition and the table is the original one plus the owned entry, after every step of `Transcript.Created`; failure records the stage's code as first error, unless there was one, and phase, records, observations and clock bear that code out; an `Addable` ledger fails only for an unhelpful system, another writer or the clock |
| `Coordinator.Admin.RecordIntent` | scripts/windows_positive_loopback_admin.py:269-273 | The intent carries the operation's own start and is durable before any addition can be allocated |
| `Coordinator.Admin.Addition` | scripts/windows_positive_loopback_admin.py:274-305 | From the intent to the claim: command, observation, recorded attributes, judgement |
| `Coordinator.Admin.JudgeAddition` | scripts/windows_positive_loopback_admin.py:287-292 | A child that did what it was started for is never refused, unless another writer interfered or the window closed |
| `LedgerFacts.DeltaExplained` | scripts/windows_positive_loopback_admin.py:277-292 | A report refused as a delta is not the baseline with the owned SID added, whatever its attribute |
| `Coordinator.Admin.ClaimAddition` | scripts/windows_positive_loopback_admin.py:293-298 | The addition is claimed only before the deadline and only for the table that was read, and refused for no other reason |
| `Coordinator.Admin.Finished` | scripts/windows_positive_loopback_admin.py:307-318 | Success means a completed cleanup pass, exact if nothing had gone wrong and the window was open; every reason to fail is stated |
| `Coordinator.Admin.Cleanup` | scripts/windows_positive_loopback_admin.py:321-396 | Success on an owned operation: neither SID observed, and exact restoration claimed if and only if there was no error and the observations agree; failure: both errors on record and no claim. A `Cleanable` ledger fails only for an unhelpful system, another writer or a disputed entry; a prompt pass without error is exact and took every step of `Transcript.Cleaned` in order |
| `Coordinator.Admin.BeginPass` | scripts/windows_positive_loopback_admin.py:322-336 | Success withdrawn, commands reaped and parent settled, in that order, exactly when memory was durable, the parent bound or the end abnormal, and the system helped |
| `Coordinator.Admin.SettleParent` | scripts/windows_positive_loopback_admin.py:333-336 | After an abnormal end the parent's job is stopped, if there is one; after a normal one the parent must be alone |
| `Coordinator.Admin.CleanupOwned` | scripts/windows_positive_loopback_admin.py:347-392 | An entry that is there is removed: over a table nobody else writes a pass with room for three commands and a helpful system restores it |
| `Coordinator.Admin.Examine` | scripts/windows_positive_loopback_admin.py:347-356 | The first observation, and no error recorded without a missed deadline or another writer |
| `Coordinator.Admin.Withdraw` | scripts/windows_positive_loopback_admin.py:322-331 | Earlier success is withdrawn on disk before anything is observed again, and nothing else in the ledger changes |
| `Coordinator.Admin.NoteLate` | scripts/windows_positive_loopback_admin.py:348-349 | A first pass past its deadline records that error and goes on; nothing is recorded otherwise |
| `Coordinator.Admin.NoteForeign` | scripts/windows_positive_loopback_admin.py:350-356 | An entry that is neither ours nor the baseline's records that error and goes on; nothing is recorded otherwise |
| `Coordinator.Admin.HasAddAttempt` | scripts/windows_positive_loopback_admin_native.py:1049-1055 | The question is asked of the durable ledger |
| `Coordinator.Admin.CheckOwner` | scripts/windows_positive_loopback_admin.py:357-365 | Given the system's answers, an entry is accepted as ours exactly after a durable attempt and with the attributes that attempt left, if they were recorded |
| `Coordinator.Admin.Remove` | scripts/windows_positive_loopback_admin.py:366-370 | The removal ended by itself with exit code 0; with a helpful system the entry is gone |
| `Coordinator.Admin.Confirm` | scripts/windows_positive_loopback_admin.py:371-396 | The observation after the removal must be the one before it without our entry; if the table is that, a helpful system confirms it |
| `Coordinator.Admin.Conclude` | scripts/windows_positive_loopback_admin.py:375-383 | The ledger a pass ends with, exactly: late or not, repeated or not |
| `Coordinator.Admin.Serve` | scripts/windows_positive_loopback_admin.py:398-419 | Success means a restored table on record, after every step of `Transcript.Served` if no error is recorded; failure always leaves a first error and no claim, and a pass over what may be left was made: cleaned, failed on record, or a receipt for nothing owned. A `Servable` ledger fails only for an unhelpful system, another writer or the clock, and otherwise ends in exact restoration |
| `Coordinator.Admin.ServeBody` | scripts/windows_positive_loopback_admin.py:398-411 | The stage an exception is filed under: nothing had changed in the first, and the last is reached exactly after the addition |
| `Coordinator.Admin.WaitRequest` | scripts/windows_positive_loopback_admin_native.py:1099-1112 | The parent is checked before every look at the slot |
| `LedgerFacts.OwningUndisputed` | scripts/windows_positive_loopback_admin.py:357-365 | After a proved addition only another writer can make its entry look foreign |
| `LedgerFacts.RestoredIsExact` | scripts/windows_positive_loopback_admin.py:375-383 | Without another writer a pass that ends without an error restored the original table exactly |
| `LedgerFacts.RequestConsumed` | scripts/windows_positive_loopback_admin_native.py:1085-1097 | Consuming a slot keeps the ledger acceptable and was not done before |
| `LedgerFacts.Derived` | scripts/windows_positive_loopback_admin_native.py:896-905 | A bootstrap put together from frozen, prepared and observed facts satisfies its own validator |
| `Sid.ParseAfterPrint` | scripts/windows_positive_loopback_full_get.py:54-61 | The coordinator's parser inverts the worker's printer on every well-formed SID |
| `Sid.PrintAfterParse` | src/icode/windows_positive_loopback_policy.py:40-52 | Printing inverts parsing on every accepted text |
| `Sid.TextIsInjective` | scripts/windows_positive_loopback_full_get.py:54-61 | Two well-formed SIDs print alike only if they are equal |
| `Sid.TextFits` | src/icode/windows_positive_loopback_policy.py:42 | No printed SID exceeds the parser's 184 characters |
| `Sid.LongestText` | src/icode/windows_positive_loopback_policy.py:42 | and the largest authority with fifteen largest sub-authorities prints as exactly 184 |
| `Sid.TextInNumbers` | scripts/windows_positive_loopback_full_get.py:54-61 | The text byte by byte: revision, the authority most significant byte first, each sub-authority least significant byte first |
| `Sid.TextNeeds` | scripts/windows_positive_loopback_full_get.py:54-61 | and only bytes of that shape have a text |
| `Sid.Administrators` | scripts/windows_positive_loopback_full_get.py:54-61 | The built-in Administrators group prints as S-1-5-32-544 |
| `Snapshot.Mapping` | scripts/windows_positive_loopback_admin.py:142-164 | The dictionary loop computes the mapping of the report, or refuses it |
| `Snapshot.MappingMeaning` | scripts/windows_positive_loopback_admin.py:142-164 | An accepted report lists each SID once: the mapping has exactly its entries, no more and no fewer |
| `Snapshot.Collect` | scripts/windows_positive_loopback_full_get.py:64-134 | Whatever the system answers, aliased pointers and failing frees included, no address is freed twice and none unless the whole graph is unaliased; a complete report holds exactly the listed entries |
| `Snapshot.Graph` | scripts/windows_positive_loopback_full_get.py:79-91 | The ownership graph is safe exactly when no two addresses coincide |
| `Snapshot.Release` | scripts/windows_positive_loopback_full_get.py:108-125 | Every owned address is released once, whichever releases fail |
| `Snapshot.CompleteReportMaps` | scripts/windows_positive_loopback_admin.py:142-164 | A complete report, once reaped, is accepted and maps exactly `count` distinct SIDs |
| `SeccompFilters.DenyProgramMeans` | native/linux/icode_landlock.c:720-764 | On every call of every ABI, on both architectures, the first array decides exactly the no-network policy |
| `SeccompFilters.LoopbackProgramMeans` | native/linux/icode_landlock.c:801-859 | The second array decides exactly the loopback-only policy |
| `SeccompFilters.DenyInNumbers` | native/linux/icode_landlock.c:720-764 | The first array's verdict on every call, with architectures, system calls, types and verdicts as numbers |
| `SeccompFilters.LoopbackInNumbers` | native/linux/icode_landlock.c:801-859 | The same for the second array |
| `SeccompFilters.ProgramsTerminate` | native/linux/icode_landlock.c:720-859 | From any instruction with any accumulator both arrays return a verdict inside the array |
| `SeccompFilters.CheckedTerminates` | native/linux/icode_landlock.c:765-768 | Any array that passes the load-time check returns from every instruction |
| `SeccompFilters.NotificationOnlyReplacesRefusal` | native/linux/icode_landlock.c:727-729 | The notifying variant differs by its refusal verdict and by nothing else |
| `SeccompFilters.LoopbackAddsTcpOnly` | native/linux/icode_landlock.c:801-859 | Loopback mode allows what deny mode allows and IPv4 or IPv6 TCP stream sockets, exactly; it kills the same calls |
| `SeccompFilters.PairBlockMeans` | native/linux/icode_landlock.c:741-756 | The `socketpair` block allows AF_UNIX stream, datagram and seqpacket pairs with protocol 0 only |
| `Descriptors.CloseInherited` | native/linux/icode_landlock.c:169-188 | Success leaves exactly the original descriptors 0 to 2 and the named ones; it is refused exactly for standard or repeated names or a failed call; nothing kept is ever closed |
| `Descriptors.CloseInheritedWithWorkspace` | native/linux/icode_landlock.c:190-213 | The same for three slots, sorted in place |
| `Descriptors.CloseSlots` | native/linux/icode_landlock.c:200-212 | The loop over sorted slots issues the gaps between kept descriptors |
| `Descriptors.SortSlots` | native/linux/icode_landlock.c:193-199 | The exchange sort orders the three slots and loses none |
| `Descriptors.SameKeptSameCalls` | native/linux/icode_landlock.c:169-213 | The two functions, keeping the same descriptors, leave the same table by the same calls |
| `Descriptors.CallsWellOrdered` | native/linux/icode_landlock.c:169-213 | Every range of a successful closing is well ordered, and together they cover exactly what is not kept |
| `QuotaText.ReadAll` | native/linux/icode_task_quota.h:48-69 | The reader returns the whole file, or an error: too long, a NUL byte, or a failed read; it never overflows the buffer and always closes |
| `QuotaText.HasWord` | native/linux/icode_task_quota.h:92-102 | A word is found exactly when it is one of the blank-separated tokens |
| `QuotaText.ScanEvents` | native/linux/icode_task_quota.h:122-133 | The scan accepts exactly the texts with one `populated 0` line and no other `populated` line |
| `TaskQuota.Quota.Prepare` | native/linux/icode_task_quota.h:266-316 | It succeeds exactly for a valid unit and limit, a fresh state, a scope of this user's in which the caller is alone, without child directories or the two names, and a kernel that refuses nothing; then the calls made are exactly those of the source, in its order, the caller is in the supervisor, scope and payload empty, `pids.max` equal to the limit. Failure: every handle it opened closed once, the state reset, no earlier name touched, only empty leaves it made removed, and a leaf stays behind only with the caller in it or with a refusal that names it |
| `TaskQuota.Quota.NewLeaf` | native/linux/icode_task_quota.h:204-214 | A leaf is made, opened and checked: success exactly when the kernel refused nothing, and then its name resolves to the directory held, on the scope's device, owned by this user and writable by nobody else |
| `TaskQuota.Quota.Identity` | native/linux/icode_task_quota.h:111-120 | Success exactly when handle and name still resolve to the recorded directory and the kernel refused nothing |
| `TaskQuota.Quota.Empty` | native/linux/icode_task_quota.h:122-141 | Success exactly when the cgroup holds no process and the kernel refused nothing |
| `TaskQuota.Quota.Abort` | native/linux/icode_task_quota.h:252-264 | Only leaves this program made, still in place and empty, are removed, and each of them is, unless a call about it was refused meanwhile; every handle is closed once |
| `TaskQuota.Quota.Close` | native/linux/icode_task_quota.h:38-46 | Each handle held is closed once and forgotten |
| `TaskQuota.Quota.Fork` | native/linux/icode_task_quota.h:318-340 | A child starts exactly when both leaves are in place, the payload leaf empty and capped, and the kernel refuses nothing; it starts in that leaf, after the checks in the order given, and its copy of the handles is closed |
| `TaskQuota.Quota.Finish` | native/linux/icode_task_quota.h:342-357 | Success exactly when the payload leaf is this program's, in place and empty and the kernel refuses nothing; the calls come in the order given; it removes exactly that leaf and closes its handle; failure changes nothing |
| `TaskQuota.UnitNames` | native/linux/icode_task_quota.h:83-90 | The unit names are those with 32 lower-case hexadecimal digits between `icode-task-` and `.scope` |
| `ResourceChannel.DecodeNonce` | native/linux/icode_task_resource.h:46-53 | The 32 digits of the unit name decode to 16 bytes |
| `ResourceChannel.DigitsInNumbers` | native/linux/icode_task_resource.h:46-53 | A hexadecimal digit has its usual value |
| `ResourceChannel.NonceRoundTrip` | native/linux/icode_task_resource.h:46-53 | Spelling the nonce gives the digits back |
| `ResourceChannel.DistinctUnits` | native/linux/icode_task_resource.h:46-53 | Different units have different nonces |
| `ResourceChannel.FrameDetermines` | native/linux/icode_task_resource.h:57-70 | A frame is 26 bytes and determines phase, nonce and limit |
| `ResourceChannel.MessagesInNumbers` | native/linux/icode_task_resource.h:57-127 | The four frames and the acknowledgement, byte by byte |
| `ResourceChannel.FramesAreNotAcknowledgements` | native/linux/icode_task_resource.h:57-127 | No frame the launcher sends passes as an acknowledgement |
| `ResourceChannel.Channel.Send` | native/linux/icode_task_resource.h:57-70 | Interrupted or not, one whole frame is sent or none |
| `ResourceChannel.Channel.Acknowledged` | native/linux/icode_task_resource.h:90-128 | Accepted exactly for the 25 expected bytes with one credential message from the host and nothing else; every delivered descriptor is closed in every case |
| `Launch.AtMostOneMarker` | native/linux/icode_landlock.c:1165-1225 | Under every interleaving at most one failure byte is written, and never by a task whose command started |
| `Launch.OneTerminalFrame` | native/linux/icode_landlock.c:1722-1727 | Exactly one terminal frame is attempted, last; CONFIGURED comes before it or not at all |
| `Launch.LauncherTranscript` | native/linux/icode_landlock.c:1692-1733 | The launcher's own steps, at every stage, are those of one fixed order with its stated shortcuts |
| `Launch.TerminalFrame` | native/linux/icode_landlock.c:1723-1724 | Of a run that is over: CLEANUP_FAILED was tried exactly if removing the leaf failed, PREEXEC_FAILED exactly if that did not fail and the run is blamed on what came before the command, FINISHED exactly otherwise |
| `Launch.ExitStatus` | native/linux/icode_landlock.c:1692-1733 | The exit status is 1 for every failure on record and the reaped status of init otherwise |
| `Launch.FramesAre` | native/linux/icode_landlock.c:1698-1727 | What the socket took: CONFIGURED if it was sent, then the terminal frame if that was |
| `Launch.SupervisionFollowsAcknowledgement` | native/linux/icode_landlock.c:1698-1711 | Neither init nor payload exists before CONFIGURED was taken and its acknowledgement accepted |
| `Launch.PreexecFailedIsTrue` | native/linux/icode_landlock.c:1265-1333 | PREEXEC_FAILED is never wrong: the command was not started and never will be |
| `Launch.FinishedMeansEmpty` | native/linux/icode_landlock.c:1712-1725 | FINISHED means the payload leaf is removed and no process is or can be in it |
| `Launch.FinishedWithoutMarker` | native/linux/icode_landlock.c:1327-1333 | FINISHED, with the error pipe read or init reaped with status 0, means no failure byte was written |
| `Launch.FinishedRulesOutMarker` | native/linux/icode_landlock.c:1317-1339 | Over everything the launcher can have seen of pipe and init, FINISHED rules out a failure byte exactly when the pipe was read or init was reaped with status 0 |
| `Launch.FinishedRulesOutMarkerInPipe` | native/linux/icode_landlock.c:1293-1339 | If a read fails only on an empty pipe whose writing end may still be held, the exact condition is that the pipe was read or init was reaped at all |
| `Launch.UnheardMarker` | native/linux/icode_landlock.c:1317-1339 | In every other case there is a run with a byte written, unheard, and FINISHED reported |
| `Launch.ReapedMeansRead` | native/linux/icode_landlock.c:1317-1333 | Over such a pipe the read succeeds whenever init was reaped |
| `Launch.ZeroMeansSuccess` | native/linux/icode_landlock.c:1692-1733 | Exit status 0 means the command ran and exited 0, its leaf is gone and FINISHED was delivered |
| `Launch.ReachableSound` | native/linux/icode_landlock.c:1153-1339 | The invariant of the three processes holds after every interleaving |
| `Launch.Launcher.Supervise` | native/linux/icode_landlock.c:1247-1339 | The supervising half is a legal part of a run, whatever init and payload do meanwhile |
| `Launch.Launcher.Run` | native/linux/icode_landlock.c:1681-1733 | The launcher's own steps, interleaved with any steps of the others, are a legal run that ends |
| `PeReader.Parse` | scripts/windows_pe_reader.py:72-149 | An image is built exactly when its headers and sections are in range and no address is claimed twice |
| `PeReader.RejectOverlaps` | scripts/windows_pe_reader.py:53-58 | The sorted running-end test accepts exactly pairwise disjoint spans |
| `PeReader.OneSpanPerAddress` | scripts/windows_pe_reader.py:53-58 | Accepted spans hold every address at most once |
| `PeReader.ReadHeaders` | scripts/windows_pe_reader.py:76-113 | The header fields are read in bounds, and refusal means no layout exists |
| `PeReader.ReadSections` | scripts/windows_pe_reader.py:115-134 | The section loop's three lists are the declared spans and regions, or some section is out of range |
| `PeReader.AcceptedRegions` | scripts/windows_pe_reader.py:110-149 | Every accepted image's regions are inside image and file and disjoint in both |
| `PeFormat.WrittenIsRead` | scripts/windows_pe_reader.py:72-149 | A file written field by field in the format's own order is accepted exactly when its numbers are admissible, and its directories, sections and regions are read as they were written |
| `PeFormat.AcceptedIsWritten` | scripts/windows_pe_reader.py:72-149 | Every accepted image is such a file, so nothing else is accepted |
| `PeFormat.SectionInFile` | scripts/windows_pe_reader.py:115-134 | A 40-byte section header gives its own virtual size, address, raw size and raw pointer |
| `PeFormat.DirectoryInFile` | scripts/windows_pe_reader.py:140-141 | A directory entry gives its own address and size |
| `PeReader.RvaToOffset` | scripts/windows_pe_reader.py:151-160 | A request is served exactly when one region holds all of it |
| `PeReader.OneRegion` | scripts/windows_pe_reader.py:157-159 | The region an address is served from is unique, so the scan order does not matter |
| `PeReader.MappingIsExact` | scripts/windows_pe_reader.py:157-159 | Offsets are in bounds and every byte of a request maps where it would alone |
| `PeReader.MappingIsInjective` | scripts/windows_pe_reader.py:151-160 | Distinct addresses map to distinct offsets |
| `PeReader.NoSpanning` | scripts/windows_pe_reader.py:151-160 | A request with its ends in two regions is never served |
| `PeReader.ContentParts` | scripts/windows_pe_reader.py:162-165 | Part of a complete request is a complete request for that part |
| `PeReader.ReadRva` | scripts/windows_pe_reader.py:162-165 | The bytes read are those the one-byte mapping gives |
| `PeDirectories.Inspection.Read` | scripts/windows_pe_directories.py:99-102 | A read is charged before it happens, and never succeeds beyond the budget |
| `PeDirectories.Inspection.Ascii` | scripts/windows_pe_directories.py:107-124 | A name is returned exactly when a terminated, bounded, permitted name lies in one region and the budget covers it |
| `PeDirectories.Inspection.Thunks` | scripts/windows_pe_directories.py:126-148 | Success yields the zero-terminated table in one region, each value an ordinal or a hint and name in one region, at an exact cost; refusal means every such table costs more than is left |
| `PeDirectories.Inspection.AddressTable` | scripts/windows_pe_directories.py:150-159 | Success means a complete table of the expected length and, if given, the expected values; refusal that there is none or it costs more than is left |
| `PeDirectories.Inspection.Ordinary` | scripts/windows_pe_directories.py:183-194 | An ordinary descriptor is unbound and its address table equals its lookup table; refusal means no module fits it, or none that is affordable |
| `PeDirectories.Inspection.Delayed` | scripts/windows_pe_directories.py:174-196 | A delay descriptor is mode 1, unbound, with tables of one length; refusal means no module fits it, or none that is affordable |
| `PeDirectories.Inspection.Imports` | scripts/windows_pe_directories.py:161-198 | Success yields exactly the descriptors before the first all-zero one inside the declared size, at an exact cost; it is refused exactly when there is no such list or the shared budgets do not cover it |
| `PeDirectories.ImportsAreUnique` | scripts/windows_pe_directories.py:161-198 | One table of descriptors has one meaning |
| `PeDirectories.DescriptorFields` | scripts/windows_pe_directories.py:169 | Each descriptor field is four bytes, least significant first |
| `PeResources.Walk.Node` | scripts/windows_pe_directories.py:226-277 | The walk ends on any bytes; success adds exactly the leaves the directory leads to, with different paths of length 3, enters every directory once and charges exactly what they cost; it is refused exactly when something below is malformed, entered twice or not covered by what is left |
| `PeResources.Walk.Resources` | scripts/windows_pe_directories.py:200-283 | The leaves are exactly those of the tree, the manifests exactly the leaves under type 24, at least one; it succeeds exactly on a tree that can be walked with what is left and holds a manifest |
| `PeResources.EntriesPrefix` | scripts/windows_pe_directories.py:234-277 | The first entries of a directory cost no more than all of them and enter the same directories first |
| `PeResources.Walk.ReadKey` | scripts/windows_pe_directories.py:209-224 | A key is a 16-bit number or a non-empty strict UTF-16 name without NUL |
| `PeResources.FieldsInNumbers` | scripts/windows_pe_directories.py:227-256 | Every 16-bit and 32-bit field is stored least significant byte first |
| `PeResources.Utf16IsDecodable` | scripts/windows_pe_directories.py:216-224 | The strict reading accepts exactly the UTF-16 encodings of Unicode scalar values |
| `PeResources.Walk.AddLeaf` | scripts/windows_pe_directories.py:253-277 | A leaf is recorded, and as a manifest within 4096 bytes and the shared 64 KiB |
| `PeResources.ManifestsAre` | scripts/windows_pe_directories.py:257-277 | A leaf is a manifest exactly when its type key is 24 |
| `PeResources.LeavesAreFunctional` | scripts/windows_pe_directories.py:226-277 | Three keys lead to one data entry at most |
| `PeResources.Inspect` | scripts/windows_pe_directories.py:323-340 | It succeeds exactly on an accepted image whose import tables and resources can all be read in order out of one set of budgets, and then describes both import tables, the resource tree and its manifests |
| `PeResources.CheckPairs` | scripts/windows_pe_directories.py:325-335 | The four declared pairs are checked exactly: both zero or neither, declared ranges in one region, bound imports absent |
| `TraceMonitor.Observation.Receipt` | scripts/probe_windows_installed_source.py:165-187 | A receipt is given exactly when the sequence of callbacks is clean, a condition on the callbacks alone: each fitted what came before it, every handle was closed in reverse order, every buffer freed, and each decision had its two reads, each with one fresh buffer freed before it returned |
| `TraceMonitor.SettledIsBalanced` | scripts/probe_windows_installed_source.py:165-187 | While the ledger follows the callbacks, its own final test asks for exactly their balance |
| `TraceMonitor.CleanIsOrderly` | scripts/probe_windows_installed_source.py:165-187 | Clean callbacks opened no handle twice, and decided each node in order on two equal reads of it, after passes only |
| `TraceMonitor.LedgerExists` | scripts/probe_windows_installed_source.py:98-163 | Callbacks that each fitted what came before always have a ledger that follows them |
| `TraceMonitor.CleanClosesOnce` | scripts/probe_windows_installed_source.py:165-187 | Clean callbacks close every opened handle exactly once |
| `TraceMonitor.Observation.HandleOpened` | scripts/probe_windows_installed_source.py:113-120 | The fault flag is raised exactly when the open did not fit the callbacks before it; otherwise the ledger follows |
| `TraceMonitor.Observation.HandleClosed` | scripts/probe_windows_installed_source.py:122-127 | The same for a close |
| `TraceMonitor.Observation.InfoQueried` | scripts/probe_windows_installed_source.py:129-138 | The same for a buffer the query returned, even when the query raised |
| `TraceMonitor.Observation.Freed` | scripts/probe_windows_installed_source.py:140-153 | The same for its release |
| `TraceMonitor.Observation.PolicyDecided` | scripts/probe_windows_installed_source.py:155-163 | The same for a decision, which needs two equal reads of the next node |
| `TraceMonitor.Observation.ReadDone` | scripts/probe_windows_installed_source.py:277-290 | The same for a read, which needs one fresh buffer of the queried node, freed again |
| `AceNormalization.InheritedPreserved` | scripts/run_windows_appcontainer_read_probe.py:1006-1010 | The shared-iterator test holds exactly when the old inherited entries are a subsequence of the new ones |
| `AceNormalization.GreedyIsComplete` | scripts/run_windows_appcontainer_read_probe.py:1006-1010 | Taking first matches misses no embedding |
| `AceNormalization.AddedInherited` | scripts/run_windows_appcontainer_read_probe.py:1013-1022 | Given a subsequence, the second loop partitions the new list into the old entries and the additions, in order |
| `AceNormalization.FailureCodes` | scripts/run_windows_appcontainer_read_probe.py:990-1037 | The codes are exactly the violated invariants |
| `AceNormalization.NormalizeInheritedAceFlag` | scripts/run_windows_appcontainer_read_probe.py:953-959 | Only the origin marker is cleared; a wrong length is an error |
| `AceNormalization.NormalFormsDecide` | scripts/run_windows_appcontainer_read_probe.py:953-959 | Normal forms are equal exactly for entries that differ in the origin marker at most |
| `AclWalk.VerifyAncestor` | scripts/windows_positive_loopback_admin_win32.py:388-406 | Accepted exactly for a trusted owner and a list whose entries fit, count only as well-formed allowances, and let no untrusted identity change anything, offset by offset and as a list of entries |
| `AclWalk.OffsetsInside` | scripts/windows_positive_loopback_admin_win32.py:390-406 | The walk's offsets stay inside the list, so the last test cannot fail |
| `AclWalk.AcceptedMeansProtected` | scripts/windows_positive_loopback_admin_win32.py:390-406 | The walk's condition on offsets holds exactly when the declared number of whole entries follow the header and every counting one is an allowance with mutation rights for trusted identities only |
| `OwnedHandles.ReleaseOwned` | scripts/windows_positive_loopback_admin_win32.py:88-101 | Every close or free is attempted once and in order; the errors are those of the releases that failed, and an active exception is never replaced |
| `OwnedHandles.OpenFile` | scripts/windows_positive_loopback_admin_win32.py:257-293 | The caller gets an open handle, or nothing is left open; nothing is released twice |
| `BoundedCollection.Collect` | scripts/run_macos_m0a2_vectors.py:19-49 | What is kept is a prefix of each stream within the bound; a complete result is both streams, an exceeded one is exactly the bound |
| `BoundedCollection.FitsExactly` | scripts/run_macos_m0a2_vectors.py:33-42 | Neither timed out nor interrupted, the loop accepts exactly the outputs that fit: the bound is accepted, one byte more is not |
| `BoundedCollection.BoundedNative` | scripts/run_macos_m0a2_vectors.py:19-69 | A complete result is both whole streams of a child known to have exited, at most 65536 bytes; each pipe is closed once |
| `BoundedCollection.CollectForBinding` | scripts/run_macos_m0_ci.py:39-86 | Whole, decodable streams within the bound of a child that exited 0, exactly then; whatever failed, the files get prefixes within the bound, and the pipes are closed once the child is reaped |

## Left out

- Freezing, copying and preparing the private tree, account creation and the tool, loader, canary and ABI
  comparisons: I/O comparison; `readonlyPrepared` stands for their outcome, and a run starts from a frozen or prepared ledger.
- The recovery deadline and the checkpoints: they only make calls fail, which every modelled call may do anyway.
- Torn ledger writes: a malformed ledger fails closed on reopening, so no later session exists.
- File identities, security descriptors and paths of the store: a file is a name in a set of at most 64.
- JSON encoding, SHA-256, XML manifest policy and regular expressions: requests are accepted or not by an
  arbitrary choice, a resource leaf keeps its bytes instead of their digest, and the manifest policy is a parameter.
- How often the system fails to help, and retries: an operation is shown to go through when every answer helps, not that answers do.
- `icode_quota_open_scope`: its walk along the cgroup path is one kernel call that yields the scope or fails.
- Landlock rules, namespaces, capabilities, the seccomp listener hand-off and the poll deadline of the acknowledgement.
- The filter arrays are written as concatenated blocks; the concatenation is the source's array, instruction by instruction.
- `errno` values of the quota and descriptor functions, except in the bounded reader.
- Type checks of Python arguments (`type(x) is int` and the like): the types of the model exclude them.
- WFP receipts, wire schemas, CI drivers, wheel probes, benchmark, site, governance and provenance code.
- The parent process and its job: alive, alone or stopped is one answer of the system each; their handles are not followed.
- PeResources.Inspect: which error is reported first is left to the code's order.
- BoundedCollection.CollectForBinding: writing the two files may not fail, and a failure to close a pipe is not modelled.
