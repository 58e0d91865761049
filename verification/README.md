# pneu: a Dafny model of its coordination logic

pneu coordinates independent processes through files: locks, atomic renames, fences and small JSON
records. This project models the parts of it whose promises are about every interleaving and every
crash point, and proves those promises.

- `Migration.dfy`, `MigrationRuns.dfy`: moving a project's mailbox between its local and its central tree; every filesystem step can fail or be the last
- `MailTree.dfy`, `MailCopy.dfy`: scanning, counting and copying a mail tree with hard links
- `Leases.dfy`, `SeatRuntime.dfy`, `SeatStore.dfy`: fenced seat leases, capability records, guards and native-root binding: interleavings, the same records in place with whole bindings under interference, and the claim scan
- `ReplyAlarms.dfy`, `LaunchIntent.dfy`: reply alarms and Codex launch intents
- `Turnstile.dfy`: the reader/writer layout lock behind a gate
- `Registry.dfy`: the project registry and the identity markers in project directories
- `Acks.dfy`: acknowledgement batches, receipts and archiving
- `MessageIds.dfy`, `Envelopes.dfy`: message identifiers, reference lists and the mail header
- `WebSocket.dfy`, `AppServer.dfy`: WebSocket framing (RFC 6455) and the request client above it
- `HookSettings.dfy`: adding and taking away managed hooks in somebody else's JSON

A crash point is modelled by a call of `Tick` after each atomic step: it may let the process go on, make
the call fail, or kill the process, so what a method ensures at every return holds at every crash
point. A field `calm` switches faults off; "undisturbed" below means calm.
In `Migration`, a field `tearing` makes a death inside the first write of a recovery record the one
fault. Interference by other processes is either an arbitrary schedule of steps (`Leases`, `SeatRuntime`,
`Turnstile`, the purges in `MigrationRuns`) or an arbitrary change between two steps (`SeatStore`, `Registry`).

Where an obvious claim about the code is false, the model keeps the code and states what is true:

- A purge of a retired local tree runs after the layout lock is released, by name, and so also inside somebody
  else's run. It can destroy a drifted tree that no backup keeps, and `MigrationRuns.PurgesOverlap` gives the
  run. The exact condition can be read off when a run of migrate begins from the central layout
  (`MigrationRuns.Host.Hazard`): a purge waits for the directory named after the marker's operation, and that
  directory is gone, or another purge waits for it or has it open. Unless a run begins so, nothing but committed
  trees is ever lost, whatever the purges do inside the runs (`MigrationRuns.Host.RunToHazard`); wherever a run
  may begin so and is ready, mail can be lost (`MigrationRuns.Host.Loses`).
- A rerun compares the local tree and then renames it; what somebody writes in between goes to the purge with it
  (`MigrationRuns.LateStray`).
- A crash or a failed write inside a legacy import can leave a torn file under a fixed name. Convergence holds
  exactly without it (`MigrationRuns.MigrateConverges`), nothing converges with it
  (`MigrationRuns.NeverConverges`), and it can happen (`MigrationRuns.TornImportRefuses`).
- Migrate refuses while a bookmark left by an unfinished rollback is in place or an unrelated central tree
  has drifted; `MigrateReady` and `RollbackReady` are the exact conditions.
- An ambient fence is resolved without comparing the generation the second read sees
  (`Leases.AmbientMayBeOutdated`); a thread binding is compared.
- A nonce may hold a comma, and then its receipt is not found again (`MessageIds.CommaNonceIsLost`). The
  acknowledgement theorems ask for references without commas, which is what the code mints.
- A header without an origin can declare one across its target and its kind (`Envelopes.HeaderDeclares`).
- A reassembled WebSocket message can be twice the limit (`WebSocket.TwiceIsReached`).
- Notifications taken out by a drain that fails are lost (`AppServer.Client.DrainNotifications`).

## Model

| member | source | states |
|---|---|---|
| `Migration.Project.Migrate` | bin/_rtmigrate.py:2910-3246 | At every return, hence at every crash point, the tree the registry names equals the abstract mailbox; outcomes are honest (plain error: layout unchanged, committed error: layout central, unknown: the re-read failed); undisturbed, it succeeds exactly from the ready states, and no crash leaves them but by tearing a legacy import; only an empty or fully committed tree is handed to the purge; no retired tree and no backup changes |
| `Migration.Project.Rollback` | bin/_rtmigrate.py:3249-3672 | The same for rollback of a named manifest: faithful at every crash point, honest outcomes, success exactly from the ready states, readiness kept by every crash |
| `MigrationRuns.Host.RunToHazard` | bin/_rtmigrate.py:2910-3672 | Over every sequence of migrates, rollbacks, deliveries, archivals, stray writes and steps of any number of purges, the last two also inside a run of migrate, each run stopping anywhere, up to the first run of migrate that would begin in a hazard: every tree retired before or during the run is still whole, or was handed to a purge and was then empty of mail or the whole snapshot a committed backup keeps; so every drifted or partial tree is still there |
| `MigrationRuns.Host.Run` | bin/_rtmigrate.py:2910-3672 | Over every such sequence, hazards included, the authoritative tree is the replay of the mail events; and if no run of migrate began in a hazard, only committed trees are lost |
| `MigrationRuns.Host.Migrates` | bin/_rtmigrate.py:2910-3221 | One run of migrate with any schedule of purge steps and stray writes inside it, before its look at the retired directories, and the start of its purge: the history gains exactly the directories the run made and the one it handed over, and a run that does not begin in a hazard keeps every tree but committed ones under any such schedule |
| `MigrationRuns.Host.Happens` | bin/_rtmigrate.py:3212-3221 | No purge step, stray write or bookmark change brings a hazard about, so a run that began outside one makes its look outside one |
| `Migration.Project.BeginCentral` | bin/_rtmigrate.py:3003-3013 | The part of a rerun before that look touches no local tree and no retired directory; undisturbed it succeeds exactly from the ready states, and never from a torn import |
| `MigrationRuns.Host.Loses` | bin/_rtmigrate.py:2498-2528 | The hazard is exact: from every valid state in which a run of migrate may begin in one and is ready, a stray write, the end of the other purge inside the run, and the waiting purge lose a tree that no backup keeps and that was never handed over |
| `MigrationRuns.StrayMail` | bin/_rtmigrate.py:3212-3221 | Whatever the backups hold, there is mail that none of them keeps |
| `MigrationRuns.PurgesOverlap` | bin/_rtmigrate.py:3212-3221 | The hazard is reached from a new project by undisturbed runs alone: two runs hand over one tree, a third begins while it still stands, the second purge removes it before the third run looks, and the first purge destroys the stray tree retired under that name |
| `MigrationRuns.LateStray` | bin/_rtmigrate.py:2563-2592 | A rerun hands over the tree it renames, not the one it compared: a stray write in between goes to the purge although no backup keeps it |
| `MigrationRuns.Host.Removes` | bin/_rtmigrate.py:2595-2610 | One removal inside a directory a purge has open: nothing but that directory changes, it shrinks, and its removal ends the purge |
| `MigrationRuns.RemovalIsSafe` | bin/_rtmigrate.py:2595-2610 | A removal inside an open directory destroys no tree but one handed over |
| `MigrationRuns.MigrateConverges` | bin/_rtmigrate.py:3003-3026 | After any number of failed or crashed attempts with mail in between, one undisturbed rerun ends migrated, exactly unless a crash or a failed write tore a file a legacy import stages under a fixed name |
| `MigrationRuns.NeverConverges` | bin/_rtmigrate.py:1541-1642 | Once that file is torn, no number of runs of migrate or of rollback for any manifest, disturbed or not, ever succeeds |
| `MigrationRuns.TornImportRefuses` | bin/_rtmigrate.py:2088-2126 | The torn state is reached: a project of an older version that is ready to be migrated, whose first run dies inside that write, and all of whose undisturbed reruns refuse |
| `MigrationRuns.RollbackConverges` | bin/_rtmigrate.py:3397-3471 | After any number of failed or crashed attempts, one undisturbed rerun with the same manifest ends with the local tree in charge, that generation detached and the bookmark gone, under the same proviso |
| `MigrationRuns.BetweenAttempts` | bin/_rtmail.py:162-258 | Mail delivered and archived between two attempts keeps both operations ready |
| `MigrationRuns.PurgeableIsDisposable` | bin/_rtmigrate.py:2531-2592 | What migrate may hand to the purge holds no mail or is the whole snapshot of a forward backup |
| `Migration.MailConserved` | bin/_rtmail.py:162-258 | As multisets, the mail in the inbox is what was there plus what was delivered: archiving and delivering lose, duplicate and invent nothing |
| `Migration.Project.CleanupLocal` | bin/_rtmigrate.py:2531-2592 | Whatever subset of the roots an earlier crash left in place, they end up retired; a tree is handed over for destruction only when it holds no mail or equals the snapshot, and a drifted or partial one is kept |
| `Migration.Project.QuarantineLocal` | bin/_rtmigrate.py:2498-2528 | The local roots move to a fresh retired directory, one no-clobber rename each, and keep their contents at every crash point |
| `Migration.Project.PurgeStep` | bin/_rtmigrate.py:2595-2610 | One unlink or rmdir of a recursive removal takes away at most one file of one retired directory, and the removal ends |
| `Migration.WithinDisposable` | bin/_rtmigrate.py:2595-2610 | A partly removed disposable tree is still disposable |
| `Migration.Project.FlipLayout` | bin/_rtmigrate.py:1211-1273 | The compare-and-set of the registry field requires both trees to hold the same mail, so the mailbox is the same before and after, wherever the call fails |
| `Migration.Project.CommitObserved` | bin/_rtmigrate.py:1289-1308 | After a failed flip the outcome is read back: committed exactly if the registry holds the desired layout, unknown only if the re-read fails |
| `Migration.Project.WriteRecoveryRecord` | bin/_rtmigrate.py:1541-1642 | A recovery record is published whole under a name that was free, or found identical; a torn or different staged file makes a retry refuse, and undisturbed it succeeds exactly otherwise |
| `Migration.Project.ImportLegacy` | bin/_rtmigrate.py:2088-2126 | A generation bound to an archived manifest gets its record and is rebound; undisturbed it succeeds exactly when nothing staged for it is torn |
| `Migration.Project.StageImport` | bin/_rtmigrate.py:2031-2085 | A staged marker left torn by a crash or a failed write cannot be staged over |
| `Migration.Project.VerifyImporting` | bin/_rtmigrate.py:2129-2204 | Verification keeps the generation and its mail; it changes only the binding of a legacy one |
| `Migration.Project.PublishCentral` | bin/_rtmigrate.py:2207-2267 | A central generation appears complete and bound to its record, or not at all |
| `Migration.Project.QuarantineCentral` | bin/_rtmigrate.py:2270-2297 | A central tree is set aside under a free name in one rename, only while the layout is local, and only pristine when that is asked |
| `Migration.Project.CreateBackup` | bin/_rtmigrate.py:1856-1972 | A backup bundle appears under a fresh operation id and no earlier bundle changes |
| `Migration.Project.InstallBookmark` | bin/_rtmigrate.py:2434-2457 | A foreign bookmark is refused; otherwise ours is in place |
| `Migration.Project.RemoveBookmark` | bin/_rtmigrate.py:2460-2475 | A foreign bookmark is refused; otherwise none is left |
| `Migration.Project.EnsureSourceDirectories` | bin/_rtmigrate.py:1311-1334 | Missing local roots are made empty, which leaves the mailbox as it was |
| `Migration.Project.PrepareCandidate` | bin/_rtmigrate.py:3049-3134 | A matching generation is reused, a pristine stale one retired and replaced; undisturbed this succeeds exactly when the existing one is pristine and untorn |
| `Migration.Project.CutoverForward` | bin/_rtmigrate.py:3135-3211 | Flip, recheck, retire, bookmark: what each failure leaves, with the outcome it reports |
| `Migration.Project.MigrateCentral` | bin/_rtmigrate.py:3003-3026 | The rerun after a commit: the layout stays central and local remains are retired under the marker's id |
| `Migration.Project.InstallRoots` | bin/_rtmigrate.py:2702-2758 | The staged local roots move into place one by one while the central tree is in charge |
| `Migration.Project.PrepareLocalCandidate` | bin/_rtmigrate.py:2702-2758 | Stray local mail is retired, not overwritten, before the candidate is installed |
| `Migration.Project.RollbackLocal` | bin/_rtmigrate.py:3397-3471 | The rerun after a committed rollback: detach that generation, remove the bookmark, only check a later candidate |
| `Migration.Project.RetireDetached` | bin/_rtmigrate.py:3434-3470 | Only the generation the rollback detached is set aside; another one must be pristine |
| `Migration.Project.CutoverBack` | bin/_rtmigrate.py:3580-3640 | The flip back: local and central agree before it, and what each later failure reports |
| `Migration.Project.BackUpCentral` | bin/_rtmigrate.py:3513-3556 | The rollback's own bundle and record are added; none is replaced |
| `Migration.Project.ArchiveMail` | bin/_rtmail.py:201-258 | Archiving under the lock is one event of the abstract mailbox in whichever tree is in charge |
| `Migration.Project.Deliver` | bin/_rtmail.py:162-198 | Delivery under the lock is one event of the abstract mailbox; a name in use is refused |
| `MailTree.InventoryComplete` | bin/_rtmigrate.py:582-683 | Everything reachable by a path in the tree is in the inventory |
| `MailTree.InventorySound` | bin/_rtmigrate.py:582-683 | Every inventory entry is reached by its path and describes what is there |
| `MailTree.InventoryDistinct` | bin/_rtmigrate.py:582-683 | No path occurs twice in the inventory |
| `MailTree.InodesExact` | bin/_rtmigrate.py:582-683 | The file-id map has exactly the file paths, each with its inode |
| `MailTree.Scanner.ScanDirectory` | bin/_rtmigrate.py:582-683 | The recursive scan loop appends exactly the inventory and the file ids of the directory |
| `MailTree.Scanner.ScanRoots` | bin/_rtmigrate.py:795-866 | Scanning both roots yields the inventory of the mail tree |
| `MailTree.TotalIsSum` | bin/_rtmigrate.py:751-792 | Files, directories and bytes counted by the separate traversal are the sums over the inventory |
| `MailTree.CountDirectory` | bin/_rtmigrate.py:686-748 | The counting loop computes those totals for a directory |
| `MailTree.CountMail` | bin/_rtmigrate.py:751-792 | Counting with missing roots allowed gives what a scan gives after the missing roots are made; otherwise a missing root is refused |
| `MailTree.RootsTotal` | bin/_rtmigrate.py:751-792 | The totals of the two roots are those of the tree they make, roots included |
| `MailTree.GroupAliases` | bin/_rtmigrate.py:795-866 | Paths are grouped by inode: each path in exactly one group, that of its file |
| `MailTree.LeastIsLeast` | bin/_rtmigrate.py:795-866 | The representative of a hard-link group is its least path |
| `MailTree.AssignLinks` | bin/_rtmigrate.py:795-866 | Every alias names the least path of its group and the representative names none; a link count that differs from the group is refused |
| `MailTree.SortAscending` | bin/_rtmigrate.py:795-866 | The snapshot's entries are in path order |
| `MailTree.SortDescribes` | bin/_rtmigrate.py:795-866 | Ordering the entries keeps everything they describe |
| `MailTree.ScanMail` | bin/_rtmigrate.py:795-866 | The whole scan: ordered, complete, distinct entries that describe the tree, its bytes and its hard links, with totals equal to the count; refused exactly when a file has links outside the tree |
| `MailCopy.DirectoryTurn` | bin/_rtmigrate.py:989-1038 | In depth order every directory's parent is made before it |
| `MailCopy.FileTurn` | bin/_rtmigrate.py:1040-1089 | In copy order every alias comes after its representative, and a file that is read is the first of its group |
| `MailCopy.CopyDirectories` | bin/_rtmigrate.py:989-1038 | The directory loop never meets a missing parent or an existing directory |
| `MailCopy.CopyTurn` | bin/_rtmigrate.py:897-986 | One turn copies or links one file; it fails exactly when the source file is no longer the recorded one |
| `MailCopy.CopySnapshot` | bin/_rtmigrate.py:989-1089 | The copy succeeds exactly when the destination is empty and every file read is unchanged, and then has the snapshot's directories, paths, bytes and hard-link partition |
| `MailCopy.CopyFaithful` | bin/_rtmigrate.py:1092-1115 | A root that mirrors the snapshot has the same paths and the same bytes at each |
| `Leases.RunKeeps` | bin/_rtruntime.py:1245-1370 | Every step of claims, takeovers, releases, fenced updates, guards, bindings and deaths, in any interleaving, keeps the whole invariant |
| `Leases.ReachableStates` | bin/_rtruntime.py:1245-1370 | In every reachable state at most one lease per project and harness has a live owner, and a native root is bound to at most one live seat of the host |
| `Leases.LiveLeaseDisplaced` | bin/_rtruntime.py:1245-1370 | A lease with a live owner goes away only by the release of exactly that generation or a takeover that names exactly that generation |
| `Leases.GenerationsFresh` | bin/_rtruntime.py:2672-2699 | A generation changes only with no shared guard held, and a new one was never seen before |
| `Leases.GuardedGenerations` | bin/_rtruntime.py:2217-2239 | While a shared guard of a project is held, none of its generations changes |
| `Leases.GoneForGood` | bin/_rtruntime.py:2043-2067 | A generation once released or replaced never returns, and no fenced write, release, record or guard under it ever has any effect |
| `Leases.PassedIsOutOfTheWay` | bin/_rtruntime.py:1293-1323 | What a claim has scanned is of another harness, of the same agent, or dead for good |
| `Leases.WrittenExcludes` | bin/_rtruntime.py:1325-1370 | The claim's write leaves no two live owners of one harness in the project |
| `Leases.NativeIsUnique` | bin/_rtnative.py:135-254 | Writing the native root at the end of a binding leaves it bound to one live seat of the host |
| `Leases.InspectKnows` | bin/_rtnative.py:135-159 | What the binder learned stays enough to exclude every other seat that carries the root, whatever runs meanwhile |
| `Leases.ClaimingKeeps` | bin/_rtnative.py:192-254 | Claiming the seat for the binding keeps the invariant |
| `Leases.RecordedKeeps` | bin/_rtruntime.py:1569-1681 | Updating a capability record keeps the invariant; fields of an older generation do not survive |
| `Leases.EvidenceHonest` | bin/_rtruntime.py:1569-1681 | A surface is recorded only under the generation that is current, with a live owner, at that moment |
| `Leases.CurrentThroughout` | bin/_rtcapability.py:161-259 | A generation current at both ends of a run was current all along it |
| `Leases.ThreadResolution` | bin/_rtcapability.py:161-259 | A resolved thread gets the generation its binding names, current from the first read to the second, and a surface recorded under that generation, though the three reads share no lock |
| `Leases.AmbientResolution` | bin/_rtcapability.py:285-353 | An ambient fence resolves to itself with a surface recorded under it, and was current up to the second read exactly if the second read still sees it |
| `Leases.AmbientMayBeOutdated` | bin/_rtcapability.py:285-353 | Nothing checks that: a run in which the resolved generation had been replaced between the reads |
| `SeatRuntime.Runtime.Execute` | bin/_rtruntime.py:1245-1370 | Any schedule of the in-place methods keeps seat exclusion and native-root uniqueness |
| `SeatRuntime.Runtime.WriteClaim` | bin/_rtruntime.py:1325-1370 | The re-read and write of a claim is exactly the specified step |
| `SeatRuntime.Runtime.ScanRecord` | bin/_rtruntime.py:1293-1323 | Looking at one record is exactly the specified step: go on or refuse |
| `SeatRuntime.Runtime.ReleaseLease` | bin/_rtruntime.py:2672-2699 | Release removes exactly the lease whose generation it names, with its capability record, or changes nothing |
| `SeatRuntime.Runtime.RecordCapability` | bin/_rtruntime.py:1569-1681 | A capability update is fenced, checks the harness, and changes nothing when refused |
| `SeatRuntime.Runtime.EnterSharedGuard` | bin/_rtruntime.py:2217-2239 | A guard is entered only under the current generation |
| `SeatRuntime.Runtime.InspectForBinding` | bin/_rtnative.py:135-159 | Sighting a seat during a binding is exactly the specified step |
| `SeatRuntime.Runtime.ClaimForBinding` | bin/_rtnative.py:192-254 | The binding claims its seat only after every sighting was checked |
| `SeatRuntime.Runtime.RecordNativeRoot` | bin/_rtnative.py:192-254 | The native root is written under the fence the binding's own claim received, or not at all |
| `SeatRuntime.Runtime.BindNative` | bin/_rtnative.py:162-254 | A whole binding, with arbitrary steps of all other processes between its sections: if it succeeds, the root is bound to this seat and to no other of the host for an owner that is alive, under a generation this very call minted or, where the seat was active, under the one that carried it already; if not, nothing of the attempt is left |
| `SeatRuntime.Runtime.Rebind` | bin/_rtnative.py:205-220 | An active seat is never claimed: it is accepted only if, seen twice with anything in between, the same generation of the same owner carries this very root |
| `SeatRuntime.Runtime.Perform` | bin/_rtruntime.py:1245-1370 | Every in-place method is one step of the interleaving model |
| `SeatStore.ProjectSeats.ScanRecords` | bin/_rtruntime.py:1293-1323 | The scan passes only if no record stands in the claim's way for good, and is refused exactly by a record that, when it was looked at, stood in the way, with that record's reason; fenced updates run between its reads |
| `SeatStore.ProjectSeats.ClaimSeat` | bin/_rtruntime.py:1245-1370 | A claim installs a fresh generation for its agent and displaces only a stale one or the one its takeover names, identities of the others being unchanged |
| `SeatStore.ProjectSeats.WriteRecord` | bin/_rtruntime.py:1325-1370 | The re-read decides: a record that changed since the scan is not overwritten |
| `SeatStore.ProjectSeats.UpdateWake` | bin/_rtruntime.py:2342-2428 | A wake update goes through exactly when the fence is current, its owner was seen alive, the slot is as expected and free for the new watcher, and the request is well formed; then the wake part is as asked and nothing else has changed |
| `ReplyAlarms.FatesPartition` | bin/_rtruntime.py:2175-2214 | Kept, cleared and fired are a partition of the pending alarms as multisets |
| `ReplyAlarms.SelectDistinct` | bin/_rtruntime.py:2175-2214 | Selection never repeats an alarm id |
| `ReplyAlarms.SeatAlarms.AddAlarm` | bin/_rtruntime.py:2125-2172 | An alarm is added exactly when the fence is current, its owner was seen alive and the id is new; a dead owner and an unclear one are told apart |
| `ReplyAlarms.SeatAlarms.LoadFenced` | bin/_rtruntime.py:2043-2067 | The fenced read accepts exactly the current generation with an owner seen alive, rejects another generation or a dead owner, and reports an unclear one |
| `ReplyAlarms.SeatAlarms.ReconcileAlarms` | bin/_rtruntime.py:2175-2214 | Exactly under the current fence of an owner seen alive, one pass clears the acknowledged alarms, fires the due ones and keeps the rest, and nothing acknowledged or early fires |
| `ReplyAlarms.SeatAlarms.Run` | bin/_rtruntime.py:2125-2214 | Over all runs, with deaths, takeovers and watcher restarts: added = pending + cleared + fired, and each alarm fires at most once |
| `LaunchIntent.IntentFile.ResolveStart` | bin/_rtruntime.py:1799-1929 | A token is granted if and only if the armed generation is current, its seat is Codex, and the intent is free and the thread acceptable, or the thread holds it, or the event is a clear; the token is the armed generation |
| `LaunchIntent.IntentFile.HoldsAgainstOthers` | bin/_rtruntime.py:1799-1968 | Between armings, any run of starts, resumes, clear events, releases, stale drops and lease changes leaves the holder in place and grants tokens to it alone and for the armed generation, up to the release of the holder, a granted clear event of another thread, or a stale drop |
| `LaunchIntent.IntentFile.ArmIntent` | bin/_rtruntime.py:1706-1746 | Arming is honoured exactly under the current generation of a Codex seat |
| `LaunchIntent.IntentFile.ReleaseClaim` | bin/_rtruntime.py:1932-1968 | Only the exact holder is released |
| `LaunchIntent.IntentFile.ClearIfStale` | bin/_rtruntime.py:1971-2031 | An intent is dropped exactly when its seat is vacant or holds its own generation with a dead owner |
| `Turnstile.LayoutLock.Run` | bin/_rtlib.py:400-603 | Any schedule of any entrants, with deaths and timeouts at every wait, keeps the lock's invariant |
| `Turnstile.LayoutLock.WaitBehind` | bin/_rtlib.py:508-544 | While an exclusive entrant waits at the resource, whatever everyone else does, nobody enters, departures are at most the holders there were, and with none left the resource is free for it |
| `Turnstile.LayoutLock.ExclusiveIsAlone` | bin/_rtlib.py:508-603 | An exclusive holder is the only holder and still owns the gate |
| `Turnstile.LayoutLock.EntersInTime` | bin/_rtlib.py:145-185 | Who gets in got the gate and then the resource, both before the deadline |
| `Turnstile.LayoutLock.ReaderMeetsNoLiveWriter` | bin/_rtlib.py:508-603 | A shared entrant that owns the gate can be kept out only by a killed writer whose descriptors the kernel has not closed yet |
| `Turnstile.LayoutLock.TryGate` | bin/_rtlib.py:145-185 | One round of polling the gate: granted only if free, given up only at the deadline, one attempt even with no time |
| `Turnstile.LayoutLock.TryResource` | bin/_rtlib.py:145-185 | One round of polling the resource; granted to an exclusive entrant, it is the only holder |
| `Turnstile.LayoutLock.GiveBackGate` | bin/_rtlib.py:579-580 | A shared entrant gives the gate back once it is in; an exclusive one keeps it; a failing unlock is harmless |
| `Turnstile.LayoutLock.DropResource` | bin/_rtlib.py:462-469 | Closing releases the resource first |
| `Turnstile.LayoutLock.DropGate` | bin/_rtlib.py:470-478 | and then the gate, whatever the flag says |
| `Registry.ProjectRegistry.Run` | bin/_rtlib.py:2095-2243 | Over all runs with directories moving, copied and deleted and crashes anywhere: identities unique over all rows, active paths unique, no row lost, tombstoned rows unchanged |
| `Registry.ProjectRegistry.Register` | bin/_rtlib.py:3081-3214 | Refused exactly when inadmissible; otherwise leaves nothing, a marker no row has, the marker's own row moved, or the marker and its new row; success means an active row answers for the root and carries its identity |
| `Registry.ProjectRegistry.RegisterTwice` | bin/_rtlib.py:3081-3214 | A registration that broke off anywhere is completed by the next one under the identity already written to the marker |
| `Registry.RegisteringSpares` | bin/_rtlib.py:3164-3189 | Registering changes no tombstoned row and no row whose own path still holds a project |
| `Registry.CopyIsRefused` | bin/_rtlib.py:3165-3180 | A copied identity is refused by all three operations while the original is in place |
| `Registry.MovedIsAdmitted` | bin/_rtlib.py:3165-3186 | A moved project is admitted at a free place by registering and by reindexing |
| `Registry.InterruptedIsAdmissible` | bin/_rtlib.py:3191-3207 | What an interrupted registration leaves is admissible again |
| `Registry.InterruptedIsNotRetired` | bin/_rtlib.py:3191-3207 | and its marker names no tombstoned identity |
| `Registry.RetryKeepsMarker` | bin/_rtlib.py:3191-3207 | so the retry changes no marker and uses no other identity |
| `Registry.ProjectRegistry.Unregister` | bin/_rtlib.py:3217-3344 | Refused exactly when not removable; otherwise tombstones exactly the row of the root's identity, or of the exact path when no project state is there; a live directory without a marker removes nothing |
| `Registry.ProjectRegistry.Reindex` | bin/_rtlib.py:3482-3552 | Moves exactly the row of the root's own identity, refused exactly when it is tombstoned, held elsewhere or in conflict |
| `Registry.ProjectRegistry.Flip` | bin/_rtmigrate.py:1211-1273 | Compare-and-set of one active row's layout at its exact path |
| `Registry.ProjectRegistry.WriteIdentity` | bin/_rtlib.py:2683-2813 | A marker is written whole, never over one other than the one being replaced |
| `Registry.ProjectRegistry.ReadStrictly` | bin/_rtlib.py:1339-1477 | The parse loop accepts exactly the registries without repeated identities, repeated active paths, aliased live directories or drifted active paths |
| `Registry.ProjectRegistry.Mint` | bin/_rtlib.py:2873-2878 | A minted identity is in no row |
| `Registry.EvolvedAlong` | bin/_rtlib.py:2095-2243 | Keeping rows and tombstones composes over a run |
| `Registry.AppendKeepsSound` | bin/_rtlib.py:3191-3207 | A row with a new identity at a vacant path keeps both kinds of uniqueness |
| `Registry.MoveKeepsSound` | bin/_rtlib.py:3181-3186 | So does moving one active row to a vacant path |
| `Acks.Mailbox.Run` | bin/_rtmail.py:400-455 | Over any sequence of batches, overlapping, repeated and stopped anywhere, among deliveries and other archiving: no file lost or changed, no message named by two receipts, every message archived here answered by a receipt |
| `Acks.Mailbox.Ack` | bin/_rtmail.py:400-455 | Rejected batches change nothing; what is reported archived is; a committed batch is all archived, each message answered or archived before; undisturbed it commits exactly what its preflight accepts |
| `Acks.Mailbox.Collect` | bin/_rtmail.py:359-397 | Finds exactly the wanted messages that have a receipt, and never two receipts for one nor one that fails to prove its route |
| `Acks.Mailbox.PublishReceipt` | bin/_rtmail.py:312-333 | A lost response is reconciled with the directory: committed only if the receipt is there, unknown otherwise, and an unknown one is found by the next batch |
| `Acks.Mailbox.Publish` | bin/_rtmail.py:162-198 | A message appears whole under its name or not at all, on either side of a failing rename |
| `Acks.Mailbox.Archive` | bin/_rtmail.py:201-258 | Link then unlink: at every crash point the file stands in new/ or cur/, and a retry completes the move |
| `Acks.Mailbox.ArchiveAll` | bin/_rtmail.py:438-455 | The archive loop and its look back after an error report exactly what is known to be archived |
| `Acks.Mailbox.Preflight` | bin/_rtmail.py:336-356 | The batch is checked as a whole before anything is written |
| `Acks.Mailbox.Gather` | bin/_rtmail.py:400-408 | Evidence over all senders is exactly the messages of the batch that have a receipt |
| `Acks.GroupBySender` | bin/_rtmail.py:418-421 | Grouping keeps each message in exactly its sender's group, in order, once |
| `Acks.ReceiptIsProper` | bin/_rtmail.py:422-429 | The receipt as written is parsed by any reader as a proof of the route of exactly the messages it was written for |
| `Acks.AddingKeepsSound` | bin/_rtmail.py:312-333 | Adding a receipt only for unanswered messages keeps every message named by at most one |
| `Acks.ReceiptIsOurs` | bin/_rtmail.py:382-391 | A receipt that names a message of a route belongs to that very route |
| `Acks.RefsFromMembers` | bin/_rtmail.py:418-421 | A sender's group is exactly its messages |
| `MessageIds.RecoversFor` | bin/_rtlib.py:1211-1241 | Parsing a minted identifier with its recipient recovers sender and target even when the names contain the separator |
| `MessageIds.RecoversAlone` | bin/_rtlib.py:1211-1241 | Without the recipient it recovers them exactly when the target, after a dash, does not contain the separator |
| `MessageIds.ParseForIsExact` | bin/_rtlib.py:1211-1241 | With a recipient, what is parsed spells the route exactly |
| `MessageIds.MintedRoute` | bin/_rtlib.py:1198-1208 | The route of a minted identifier is sender, separator, target |
| `MessageIds.RefsSurvive` | bin/_rtmail.py:422-425 | A list of references survives being joined and split exactly when none contains a comma |
| `MessageIds.RefsReadBack` | bin/_rtmail.py:377-378 | The references a receipt opens with are read back, whatever note follows |
| `MessageIds.CommaNonceIsLost` | bin/_rtlib.py:67-69 | The grammar admits a nonce with a comma, and a receipt for such a message does not name it |
| `MessageIds.MintedIsListable` | bin/_rtmail.py:307-309 | Minted identifiers contain no comma and no white space |
| `Envelopes.RoundTripWithOrigin` | bin/_rtlib.py:1142-1195 | With an origin, any body and every field are read back, up to letter case |
| `Envelopes.RoundTripWithoutOrigin` | bin/_rtlib.py:1142-1195 | Without one, what was printed is read back unless the header declares an origin, and then the reader refuses it: kind declares one, the identifier does, or a target ending in the word meets a kind that opens with an equals sign |
| `Envelopes.HeaderDeclares` | bin/_rtlib.py:1124-1139 | Exactly those three ways of declaring an origin exist |
| `Envelopes.DeclaresAround` | bin/_rtlib.py:1124-1139 | A declared origin lies in one part of a header or across two |
| `Envelopes.MatchesBack` | bin/_rtlib.py:60-66 | The header grammar reads back what was printed, field by field |
| `Envelopes.LowerUpper` | bin/_rtlib.py:1166-1169 | Names survive upper-casing and lower-casing |
| `WebSocket.DecodesBack` | bin/_rtcodex.py:1886-1929 | Decoding an encoded frame returns its opcode, final bit and payload, in all three length forms, under any mask or none, and leaves the rest of the stream (sections 5.2 and 5.3 of RFC 6455) |
| `WebSocket.RefusesLong` | bin/_rtcodex.py:1923-1924 | A payload over the limit is refused from its length alone |
| `WebSocket.Reassembles` | bin/_rtcodex.py:1931-1971 | Any conformant fragmentation with pings and pongs between the fragments (section 5.4) is put together, answered and consumed exactly, if and only if it stays within the limits; otherwise it is too large |
| `WebSocket.AtMostTwice` | bin/_rtcodex.py:1953-1958 | No assembled message is longer than twice the limit |
| `WebSocket.TwiceIsReached` | bin/_rtcodex.py:1953-1958 | and twice the limit is reached |
| `WebSocket.NumberOfNetwork` | bin/_rtcodex.py:1889-1894 | Network byte order is read back |
| `WebSocket.MaskTwice` | bin/_rtcodex.py:1895 | Masking twice with one key restores the payload |
| `WebSocket.Connection.ReadExact` | bin/_rtcodex.py:1904-1911 | Exactly the requested bytes are taken, however the stream hands them out |
| `WebSocket.Connection.ReadFrame` | bin/_rtcodex.py:1913-1929 | Reads exactly the frame the decoder finds at the front of the stream |
| `WebSocket.Connection.SendFrame` | bin/_rtcodex.py:1886-1896 | What is sent decodes to the payload and opcode given |
| `WebSocket.Connection.ReceiveMessage` | bin/_rtcodex.py:1931-1973 | Returns what the stream means, sends one pong per ping with its payload, in order, and stops right behind the message |
| `WebSocket.Take` | bin/_rtcodex.py:1939-1960 | One frame changes the message under assembly as specified |
| `AppServer.Client.Request` | bin/_rtcodex.py:2011-2040 | The first message with the request's identifier and an answer is returned; everything before it is kept in order |
| `AppServer.Client.DrainNotifications` | bin/_rtcodex.py:2042-2051 | All notifications and what is readable are handed over in order; a failing read takes what was already collected with it |
| `AppServer.Client.Converse` | bin/_rtcodex.py:2011-2051 | Over any run of calls every message ends in exactly one place: an answer, delivered, waiting, unread, or lost to a failed drain; no two requests share an answer |
| `HookSettings.EnableThenDisable` | bin/_rtrchost.py:367-484 | Disabling after enabling once or repeatedly restores the original value: missing file, missing or empty containers, everything else |
| `HookSettings.Enable` | bin/_rtrchost.py:367-454 | Honoured exactly when hooks is an object or absent, every event a list or absent, and no managed group present; appends one group per event and records what was created; nothing else changes |
| `HookSettings.EnableAgain` | bin/_rtrchost.py:367-454 | With an earlier record nothing is added, drift is refused, and the record stays what it was |
| `HookSettings.Disable` | bin/_rtrchost.py:457-484 | Honoured exactly when every managed group is present once; takes out just those and the containers that were created and are empty |
| `HookSettings.UndoHooks` | bin/_rtrchost.py:457-484 | The hooks object is restored exactly |
| `HookSettings.OthersSurvive` | bin/_rtrchost.py:457-484 | Whatever else is in a managed list stays in it, in number and order |
| `HookSettings.InsertedSurvives` | bin/_rtrchost.py:477 | A group somebody inserted after enabling is where it would have been without ours |
| `HookSettings.ManagedPlan` | bin/_rtrchost.py:338-347 | The managed hooks belong to two different events |

## Left out

- Ownership, mode, symbolic-link and inode-substitution checks: the trees are private and lock files stable.
- Durability below the level of atomic operations (fsync order), hashing, YAML and JSON syntax: digests stand for what they digest.
- File modes and times in inventories and digests, the inbox ignore file, and the hold-time preflight and lock waits of migrate and rollback, which appear only as calls that can fail.
- Removal of backup bundles and recovery records by somebody else; records are found where they were written.
- Identity witnesses and path guards inside migrate and rollback: a guard that fails is a call that fails.
- Clocks, random tokens and process liveness are inputs: tokens are fresh, an owner that died stays dead, looking at it may also be inconclusive.
- `reclaim_project_runtime`, which removes the claim lock it holds; lease exclusion is proved for runs without it.
- `legacy_harness_guard`, the watcher log, session surfaces, `resolve_project_address`, the legacy registry upgrade: mostly validation branches.
- The launcher, launchd plists, Codex service inspection, terminal surfaces, installers and probes: foreign calls and packaging.
- MigrationRuns.Host.RunToHazard: stray writes inside a run fall before its comparison of the local tree; for a later one see `MigrationRuns.LateStray`. A purge removes what lies in the directory it opened, as `shutil.rmtree` does with directory descriptors; its last `rmdir`, which goes by name, fails on a directory that holds mail.
- Migration.Project.CreateBackup: staging, copying and verifying the bundle are one step here, which can fail or be the last; the copying itself is `MailCopy`.
- Migration.Project.ArchiveMail: the link and the unlink of the move are one event here; `Acks.Mailbox.Archive` has both, with the crash between them.
- SeatRuntime.Runtime.BindNative: does not check the environment variables of the caller, or the native session in the wake part of the lease.
- `Leases` is on values, because its claims are about interleavings of many processes; `SeatRuntime` and `SeatStore` hold the same records in place.
- The turnstile's entrants are one table of phases rather than one object each, for the same reason.
- The registry's display names and groups, and the exclusion of the home directory and the file system root.
- A change of the disk between the checks of one registry operation and its writes: the guard on the open root directory is taken to hold.
- Receipts written by other tools: only the modelled code writes files whose names begin with `ack-`.
- Letters and digits outside ASCII in identifiers and headers, which Python's patterns also accept in places; white space is complete.
- Timeouts inside a WebSocket frame, the upgrade handshake, and the JSON text of a message.
- The mode and path recorded with hook settings, and whether the file is tracked by git.
- The order of paths in a snapshot is any strict order given as a parameter.
- Registry.ProjectRegistry.Mint: gives up after 32 collisions, as the code does, and then registration fails without having written anything.
