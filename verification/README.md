# Verified model of zfs-pay

zfs-pay watches ZFS pools and drives the locate LEDs of enclosure slots: it discovers the leaf
vdevs of every pool, joins them to Linux block devices and to enclosure slots, and switches a
slot's LED on when its disk is faulted and off when it is healthy again. Each event, each
reconciliation and each cleanup is a short-lived process; what survives between them is one JSON
state file (the bay cache, the LEDs the tool owns, the last event of every vdev) and the LEDs
themselves. This project models that logic in Dafny and proves what it promises.
`dafny verify dfyconfig.toml` checks everything.

## How the model is laid out

**LED ownership** (`internal/automation`, `internal/state`).
`Promises` holds the words in which promises are made, apart from the code that keeps them. `Types`,
`Order`, `EngineSpec` define what one callback computes from the loaded state, the request
and the environment's choice, a `Fate`: a failing locate call ends a callback, so the only choice
is which call fails or before which call the process dies. `Ledger` shows that every callback
issues only legal calls, `Course` that trouble only cuts one fixed course short. `History` lets
entries follow each other in the order in which the lock was held: damage to the file, a quarantine,
or an attempt that was published or not. `Safety`, `Bookkeeping`, `Relight`, `Provenance`,
`Duplicates`, `Retry`, `Convergence`, `Reports` and `DryRun` prove what holds of every callback and
of all histories. `Protocol` is the concurrent machine: any number of processes with program
counters, snapshots taken before the lock, locate calls one at a time, failures and crashes in every
phase, and a file that may be garbled at any moment; every run of it is a history, so the theorems
carry over. The history of a run is kept beside the world and no step looks at it. `Engine`,
`StateStore` and `Automation` are the programs themselves, as classes that update their fields in
place; `StateStore.Store` goes through every system call of an update, each of which may fail or be
where the process dies. `Solo` shows that each update of that class is a run of the concurrent
machine.

**Pool discovery** (`internal/zfs`). `Text` and `Status` hold the line-driven parser, as a loop and
as the function it computes; `StatusLaws` its laws over arbitrary text; `RoundTrip` the printer and
the proof that parsing undoes it; `Routes` the two discovery routes and their agreement.

**Identity and bays** (`internal/enclosure`, `internal/inventory`, `internal/system`,
`internal/backends/storcli`, `internal/app`). `Enclosure` is the join of disks to slots, as nested
loops over an array and as a declarative relation; `Inventory` the join of leaves to block identity
and the whole pipeline; `Block` the lsblk index and the climb to the physical disk; `Layout` its
independence of how lsblk nests devices; `Resolver` the way from a path to an identity; `BayNames`
ownership keys, drive keys and locate targets.

## What the code does that its description does not say

- The dry run of a reconciliation does not update ownership between disks. It can announce an
  operation the real run refuses (`DryRun.DryRunPromisesTooMuch`) or stop where the real run goes on
  (`DryRun.DryRunPromisesTooLittle`); `DryRun.ReconcileFaithfulIff` gives the exact condition. The
  dry runs of Handle and Cleanup are always faithful.
- A faulted disk that is found in a new bay is given that bay too and keeps the old one
  (`Convergence.MovedDiskOwnsBoth`); only Off releases bays. It owns exactly its target bay if and
  only if it owned no other one before (`Convergence.OwnsOnlyTargetIff`).
- Only the last published event of a vdev is remembered. A repeated event acts again if it has no id,
  if another event with an id was published for the vdev in between, or if the state file was lost
  (`Relight.RepeatActsIffNameless`, `Relight.RepeatActsAfterAnother`, `Relight.LossRelights`), and it
  is ignored in all other cases: `Duplicates.IgnoredIff` is exact. As long as the bay is recorded, it
  is the ownership entry that prevents a second On (`Bookkeeping.NoSecondOn`).
- A fingerprint joins subclass and id by a colon without escaping, so events of different subclass and
  id can be taken for one (`Duplicates.FingerprintsCanCollide`); with colon-free ids they are not.
- Losing the state file forgets ownership: an LED that is lit at that moment can be switched on again
  without an Off (`Relight.LossRelights`), and nothing else allows that (`Relight.SecondOnIffLost`).
- An error reported after the rename leaves the new state in place (`StateStore.CrashAtomicity`).
- The last word of a row is taken for the upath column. A row that has an annotation such as
  "was /dev/sdb1" and no such column gets the annotation's last word as its path
  (`RoundTrip.AnnotationTakenForPath`); `Routes.FallbackAgrees` says exactly when the two discovery
  routes then report different paths.
- A spare in use is printed as "sdd INUSE currently in use". The parser takes the words for counters
  and rejects the whole report, in every route: one active spare makes discovery fail for all pools
  (`RoundTrip.SpareInUseRejects`).
- A vdev printed under the pool's own name is taken for the pool row and not reported; the round
  trip says so in `RoundTrip.ForestLeaves`.
- `physical` has no guard against cycles: a top-level partition that names itself as its parent is
  climbed from forever (`Block.SelfNamedPartitionNeverHalts`). The climb ends if and only if it ends
  within as many steps as there are devices, and always ends when no top-level partition names a
  parent.
- `Bay.ID` does not escape slashes, so different bays can share an ownership key. `BayNames.CollidesIff`
  says which; no two bays that the backends list do (`BayNames.ListedNeverCollide`).

## Model

| member | source | states |
|---|---|---|
| Order.ListingUnique | internal/automation/engine.go:312-321 | A set of keys has one ascending listing, so the random order of map iteration cannot influence a run. |
| Order.SortedKeys | internal/automation/engine.go:312-321 | Collecting and sorting the keys yields that listing: ascending, every key once, no other key. |
| Order.BeforeIff | internal/automation/engine.go:312-321 | One key comes before another if and only if, after a common start, it ends or has the smaller character. |
| EngineSpec.ForgetKeepsRest | internal/automation/engine.go:232-242 | Forgetting a cleared key never invalidates a key still to be cleared. |
| Ledger.ExecAccounts | internal/automation/engine.go:229-272 | Whatever fails, a callback lights only bays nobody owns and clears only the very bay that is owned; afterwards the recorded LEDs are exactly what its successful calls left owned, each under its own bay's key. |
| Course.ExecCourse | internal/automation/engine.go:115-199 | A callback has one course of calls; failing or dying at the n-th call yields exactly the first n calls of it (and the failing one), and a course shorter than that is not affected. |
| History.ReplayWellKeyed | internal/automation/engine.go:254-268 | In every state ever persisted, each managed LED is recorded under the key of its own bay. |
| Safety.OwnershipSafety | internal/automation/engine.go:157-176 | Over any history of runs, failures, crashes, unsaved states and corrupt files, every Off targets a bay for which an earlier On succeeded, and every recorded LED has such an On. |
| Bookkeeping.BoundedDrift | internal/state/state.go:87-90 | A recorded LED and the last call for its key can disagree only on keys touched by an unpublished transaction or lit when a corrupt file was set aside; publishing settles a key. |
| Bookkeeping.ExactBookkeeping | internal/automation/engine.go:236-239 | If every transaction commits, the calls for each key strictly alternate On, Off, On, and the managed keys are exactly those whose last call was On. |
| Bookkeeping.NoSecondOn | internal/automation/engine.go:254-262 | From a state that owns a bay, through any attempts that fail, crash or publish and any damage, as long as no garbled file is set aside, no On for it is issued before a successful Off for it. |
| Relight.SecondOnIffLost | internal/state/state.go:72-93 | While a recorded LED was neither switched off nor improperly on, some job can switch it on a second time if and only if a garbled state file was set aside since it was recorded. |
| Relight.LossRelights | internal/state/state.go:72-93 | Fault, damage, quarantine, fault: the calls are On, On. |
| Relight.RepeatActsIffNameless | internal/automation/engine.go:66-71 | An instance: fault, cleanup and the same event again issue On, Off, and a third On if and only if the event has no id. |
| Relight.RepeatActsAfterAnother | internal/automation/engine.go:66-71 | An instance: fault a, another event b that finds the vdev online, and a again issue On, Off, On although a has an id. |
| Provenance.ActionWords | internal/automation/engine.go:290-299 | A state calls for On if and only if it is DEGRADED, FAULTED, UNAVAIL or REMOVED, and for Off if and only if it is ONLINE. |
| Provenance.NamedIffComplete | internal/app/types.go:63-68 | A bay has a name if and only if controller, enclosure and slot are all given. |
| Provenance.ExecFrame | internal/automation/engine.go:216-227 | A callback writes its snapshot into the bay cache and nothing else, and marks at most its own event, only when it succeeds. |
| Provenance.RefreshIff | internal/automation/engine.go:216-227 | After a snapshot a GUID has a remembered bay if and only if it had one or some disk of the snapshot has this non-empty GUID, a complete bay, and a serial or a WWN; then the last such disk gives pool, GUID, serial, WWN and bay of the entry. |
| Provenance.CacheProvenance | internal/automation/engine.go:216-227 | Along every history the cached bay of a GUID is the one it carried in the latest published snapshot that verified it; no entry is dropped except by losing the file. |
| Provenance.ExecReasoned | internal/automation/engine.go:229-299 | Every On is for a vdev reported DEGRADED, FAULTED, UNAVAIL or REMOVED, at its live or cached bay; every Off is for a bay the state recorded for a vdev reported ONLINE (or lit for it earlier in the pass, if a snapshot lists a GUID twice), or is part of a cleanup and for a recorded bay; an event's own state decides only if the snapshot does not list the vdev. |
| Provenance.OffIsOwned | internal/automation/engine.go:230-242 | With distinct GUIDs, every Off goes to a bay that the state before the job recorded for a vdev the job reports ONLINE, or cleans up. |
| Provenance.OnProvenance | internal/automation/engine.go:274-282 | After any history, an On targets the live bay of a vdev reported faulted or exactly the last bay verified for it. |
| Provenance.TargetProvenance | internal/automation/engine.go:274-282 | After any history, the bay a job aims at is the live bay of the disk if it has one, else exactly the last bay verified for the vdev, else none. |
| Provenance.TargetBayIs | internal/automation/engine.go:274-282 | The bay aimed at is the disk's own if it is complete, else the remembered one that is filed under the GUID, carries it and is complete, else none. |
| Provenance.SeenBayIsUsed | internal/automation/engine.go:216-282 | A bay seen in a published snapshot for a disk with an identity is exactly the one a later job aims at when it knows no live bay, as long as no later published snapshot shows one and the file is not lost. |
| Provenance.CacheIsComplete | internal/automation/engine.go:218-226 | After any history, every cached bay is complete, filed under its own GUID, and was seen with a serial or a WWN. |
| Duplicates.FingerprintIsOneEvent | internal/automation/event.go:61-66 | Two events with ids free of colons share a fingerprint if and only if they agree in subclass and id. |
| Duplicates.FingerprintSharedIff | internal/automation/event.go:61-66 | An event shares its fingerprint with one of another subclass or id if and only if its subclass has a colon or its id has one before its end. |
| Duplicates.FingerprintsCanCollide | internal/automation/event.go:61-66 | Subclass "x:y" with id "1" and subclass "x" with id "y:1" are taken for one event. |
| Duplicates.MarkProvenance | internal/automation/engine.go:89-91 | Along every history, the event remembered for a vdev is the last one with an id that was published for it since the state file was last lost. |
| Duplicates.IgnoredIff | internal/automation/engine.go:66-71 | After any history, an event is ignored as a duplicate if and only if it has an id and the fingerprint of the last published event of its vdev; with ids free of colons, if and only if that event has its very subclass and id. |
| Duplicates.DuplicatesActOnce | internal/automation/engine.go:66-93 | Once an event with an id is published, handling it again succeeds without a call, whatever ran, failed or was damaged in between, as long as no garbled file was set aside and no other event with an id was published for the vdev. |
| Duplicates.AtMostOneActs | internal/automation/engine.go:66-93 | Of the copies of an event in one history, none after a published one adds a call until something in between makes the store forget it. |
| Retry.RetryEqualsOnce | internal/state/state.go:72-93 | Any number of attempts that failed, died or were not saved, at any call, whether or not the failing call reached the LED, followed by one that succeeds, leave file, preserved files and every LED as one successful attempt would, also after a quarantine. |
| Retry.JobIsIdempotent | internal/automation/engine.go:51-199 | A job that succeeded, run again from the same snapshot, makes no call, cannot fail and changes nothing (for a reconciliation, with distinct GUIDs). |
| Retry.RerunChangesNothing | internal/state/state.go:148-157 | After an attempt that published, even if it reported an error from syncing the directory, rerunning the job however often leaves file, preserved files and calls as they are. |
| Convergence.HandleSettles | internal/automation/engine.go:64-93 | Handling an event that is no duplicate: on success the LEDs of the vdev are those it had and that of its target bay, recorded for its pool, if its current state is DEGRADED, FAULTED, UNAVAIL or REMOVED, none if it is ONLINE, and those it had otherwise, the event deciding only for a vdev that is not listed; in every ending other vdevs keep their entries and calls go only to the target or a bay this vdev owned; without failing calls it is refused exactly when the target is unknown or owned by another vdev. |
| Convergence.DuplicateDoesNothing | internal/automation/engine.go:67-71 | A duplicate succeeds without a call and changes only the bay cache. |
| Convergence.ReconcileConverges | internal/automation/engine.go:122-135 | With distinct GUIDs a successful reconciliation leaves every DEGRADED, FAULTED, UNAVAIL or REMOVED disk owning exactly what it owned and its target bay, every ONLINE disk owning none, and the LEDs of all other disks and GUIDs untouched. |
| Convergence.OwnsOnlyTargetIff | internal/automation/engine.go:250-268 | After it, a faulted disk owns exactly its target bay if and only if it owned no other bay before. |
| Convergence.MovedDiskOwnsBoth | internal/automation/engine.go:250-268 | A faulted disk lit in one bay and then found in another ends up owning both. |
| Convergence.ReconcileIsIdempotent | internal/automation/engine.go:122-135 | A second reconciliation from the same snapshot makes no call, reports no operation and leaves the state unchanged. |
| DryRun.DryRunIsHarmless | internal/automation/engine.go:229-272 | A dry run makes no call, touches no LED entry and marks no event, whatever the hardware would do. |
| Reports.ExecTruthful | internal/automation/engine.go:235-242 | Whatever happens, the reported operations of a real run are its successful calls, one for one and in order; only the failing call that ended it is not reported. |
| Reports.ReportIsExplained | internal/automation/engine.go:243-271 | An operation that lights says truly whether its bay is the live one or the cached one; a Handle or Cleanup that ended well is ignored if and only if it did nothing, and a reconciliation only if some disk was asked about, surely if one was and nothing was done. |
| DryRun.HandleAndCleanupFaithful | internal/automation/engine.go:64-103 | If all locate calls succeed, Handle and Cleanup end as their dry run said and issue exactly the calls it announced, in order. |
| DryRun.ReconcileFaithfulIff | internal/automation/engine.go:122-145 | With distinct GUIDs the dry run of a reconciliation announces the operations and ending of the real one if and only if no disk it reaches has a target bay that changes hands earlier in the same pass; then the calls are those it announced. |
| DryRun.DryRunDoneIff | internal/automation/engine.go:122-135 | The dry run goes through if and only if every faulted disk has a known bay that no other vdev owns. |
| DryRun.ReconcileSucceeds | internal/automation/engine.go:122-135 | If, moreover, no target changes hands in the pass and no call fails, the real reconciliation of distinct GUIDs succeeds. |
| DryRun.DryRunPromisesTooMuch | internal/automation/engine.go:122-145 | Two faulted disks with one free target bay: the dry run announces two operations, the real run does one and is refused. |
| DryRun.DryRunPromisesTooLittle | internal/automation/engine.go:122-145 | A bay owned by a disk that is online and found by a faulted one: the dry run is refused after one operation, the real run does both. |
| Protocol.MutualExclusion | internal/state/state.go:172-201 | What the linearisation rests on: since the lock is taken only while it is free, no two processes are between taking and dropping it. |
| Protocol.EveryRunIsAHistory | internal/state/state.go:72-93 | At every moment of every concurrent run, file, preserved files and locate calls are those of one sequential history in lock order: no update is lost and none invented. |
| Protocol.ConcurrentOwnershipSafety | internal/automation/engine.go:157-176 | In every concurrent run each Off follows a successful On for the same bay. |
| Protocol.ConcurrentBoundedDrift | internal/state/state.go:87-90 | In every concurrent run, even in the middle of a callback, file and hardware agree on all keys that no unpublished transaction touched. |
| Protocol.ConcurrentCacheProvenance | internal/automation/engine.go:216-227 | In every concurrent run a cached bay comes from the latest published snapshot that verified the GUID, however stale other snapshots are. |
| Protocol.ConcurrentNoSecondOn | internal/automation/engine.go:254-262 | In every concurrent run that sets no garbled file aside, from any moment without a callback under way, a recorded LED is not switched on before it was switched off. |
| Protocol.ConcurrentDuplicates | internal/automation/engine.go:64-93 | For any number of interleaved processes, whatever happened before: after one has published an event with an id, no later one handling it adds a call, not even inside its callback, until a garbled file is set aside or another event with an id is published for the vdev. |
| Protocol.ConcurrentIgnoredIff | internal/automation/engine.go:66-71 | At every moment of every concurrent run, an event is taken for a duplicate if and only if it has an id and the fingerprint of the last event published for its vdev. |
| Solo.UpdateIsARun | internal/state/state.go:72-93 | Whatever fails in an update, its effect on file, preserved files and LEDs is that of a sequence of protocol steps from any world with a free lock. |
| Engine.LookUp | internal/automation/engine.go:301-308 | Returns the first disk of the snapshot with the GUID, or none if there is none. |
| Engine.Enclosures.Locate | internal/automation/engine.go:284-288 | One absolute LED write: recorded with its outcome, which is the environment's choice. |
| Engine.Transaction.RefreshMappings | internal/automation/engine.go:216-227 | The cache in place becomes the old one overridden by every verified disk, later disks last. |
| Engine.Transaction.ClearKeys | internal/automation/engine.go:165-175 | Clears the keys one by one, forgetting each after its LED is off, and stops at the first failure with exactly the earlier keys gone. |
| Engine.Transaction.SwitchOff | internal/automation/engine.go:230-248 | Clears the bays a GUID owns, in key order, or reports that there are none. |
| Engine.Transaction.SwitchOn | internal/automation/engine.go:250-271 | Lights the target bay and records it, unless it is unknown, owned by another vdev, or already owned. |
| Engine.Transaction.Apply | internal/automation/engine.go:229-272 | Both branches together, on state, calls, operations and the ignored flag. |
| Engine.Transaction.HandleCallback | internal/automation/engine.go:64-93 | The callback of an event is its specification: duplicate, unmanaged state, action, mark; a real one that succeeds and is no duplicate leaves the vdev owning what its state asks for. |
| Engine.Transaction.ReconcileCallback | internal/automation/engine.go:122-135 | The callback of a reconciliation is its specification, up to the first disk that stops it. |
| Engine.Transaction.CleanupCallback | internal/automation/engine.go:159-181 | The callback of a cleanup is its specification. |
| StateStore.CrashAtomicity | internal/state/state.go:72-170 | For each system call that fails or is not reached: the new state is in place exactly when the callback succeeded and nothing failed before the directory sync; otherwise the path holds the complete old content, or nothing with the corrupt content preserved; success, error and death are exact. |
| StateStore.Store.WriteUnlocked | internal/state/state.go:122-159 | The file is replaced whole or not at all, exactly when trouble comes no earlier than the directory sync; an error leaves no temporary file. |
| StateStore.Store.QuarantineUnlocked | internal/state/state.go:161-170 | The corrupt content moves to a backup and the state path becomes empty; if the rename fails everything stays; a file that has vanished needs no backup. |
| StateStore.Store.Update | internal/state/state.go:72-93 | For each failure or crash point, the exact history entries, outcome and recovered flag; the lock is free afterwards. |
| StateStore.Store.DryRun | internal/automation/engine.go:94-103 | Succeeds exactly when the state can be read and the callback does, and then reports the operations of a dry callback; file and LEDs stay. |
| Automation.Service.Handle | internal/automation/engine.go:51-111 | An event is rejected exactly when it has no vdev type, or is a disk event without pool, decimal GUID or state; it is acted on exactly when it is a disk event in one of the four faulted states or ONLINE; all else and failed discovery touch nothing; an event acted on is exactly one update, and if it reports success the file holds what the event asked for, or the LEDs of before if it was a duplicate. |
| Automation.Service.Reconcile | internal/automation/engine.go:115-153 | One update over the disks sorted by GUID; if it reports success, distinct GUIDs leave every disk in the file owning exactly what the reconciliation owes it. |
| Automation.Service.Cleanup | internal/automation/engine.go:157-199 | One update; success leaves no managed LED in the file. |
| Automation.SortByGuid | internal/automation/engine.go:120 | The same disks, ascending by GUID. |
| Automation.SortKeepsDistinct | internal/automation/engine.go:120 | Sorting keeps distinct GUIDs distinct. |
| Convergence.CleanupClears | internal/automation/engine.go:157-176 | A cleanup callback that succeeds leaves no managed LED. |
| Text.DecimalRoundTrip | internal/zfs/status.go:183-188 | A counter below 2^64 printed in decimal is read back as itself. |
| Text.ParseUintIs | internal/zfs/status.go:183-188 | A counter is a non-empty run of digits of a value below 2^64, whatever zeros it starts with. |
| Text.TrimSpaceParts | internal/zfs/status.go:146 | Trimming takes only white space off the ends, and all of it. |
| Text.StripCRParts | internal/zfs/status.go:145 | Only carriage returns are dropped from the end of a line, and all of them. |
| Text.LinesOfOne | internal/zfs/status.go:115-144 | Text without a line end is one line. |
| Text.LinesConcat | internal/zfs/status.go:115-144 | Splitting into lines distributes over concatenation at a line boundary. |
| Status.LeadingColumns | internal/zfs/status.go:253-266 | The loop computes the indentation width, a tab counting for eight. |
| Status.FlushRows | internal/zfs/status.go:124-142 | Appends the leaves that one row of lookahead selects, in order. |
| Status.ParseLine | internal/zfs/status.go:144-214 | One turn of the loop moves all its variables as the state machine does, for every kind of line. |
| Status.ParseStatus | internal/zfs/status.go:114-223 | The scanning loop computes the parse function on every text, errors included. |
| StatusLaws.LookaheadFindsChildren | internal/zfs/status.go:124-131 | For every sequence of depths, the next row is deeper if and only if the row has a child under the nearest-earlier-shallower relation. |
| StatusLaws.FlushReportsTheChildless | internal/zfs/status.go:124-142 | Flushing reports, in order and once each, exactly the rows that are not the pool row and have no child. |
| StatusLaws.ParseIsCompositional | internal/zfs/status.go:144-222 | If a text ends at a line boundary, the next begins with a pool line and both parse, their concatenation parses to the concatenation of the leaves. |
| StatusLaws.RowsFlushedOnce | internal/zfs/status.go:144-222 | Over a whole parse the flushed batches hold every accepted row exactly once and in order, and their leaves are the result. |
| StatusLaws.ScanFailsIff | internal/zfs/status.go:144-217 | Scanning fails, as malformed, if and only if some line is too long or is a vdev row with counters that are no numbers inside an open config section; otherwise the scan knows the last pool, the role of the last section heading, and whether a section is open. |
| StatusLaws.ParseFailsIff | internal/zfs/status.go:114-223 | A report is rejected if and only if it has such a line, or is not blank, names no pool and does not say that there are none. |
| StatusLaws.NoPoolsIff | internal/zfs/status.go:91-94 | A text says that there are no pools if and only if it has these words in it, in upper or lower case. |
| StatusLaws.WidthOfIndent | internal/zfs/status.go:253-266 | An indentation of blanks and tabs is as wide as its blanks plus eight times its tabs. |
| StatusLaws.ReportWords | internal/zfs/status.go:227-251 | The five section headings with their roles, the eight states of a vdev row, and the line limit of 4 MiB. |
| StatusLaws.LineKinds | internal/zfs/status.go:144-193 | By its words without the surrounding white space, a line is a pool, config, errors, blank, header or section line; otherwise it is a vdev row if and only if it has five words and the second is a state, with the counters of the next three words, which are all numbers in a good row. |
| RoundTrip.RowReadBack | internal/zfs/status.go:179-214 | A printed vdev row is read back as that vdev, at its indentation, whatever white space separates the columns and whatever words follow the counters. |
| RoundTrip.HeaderReadBack | internal/zfs/status.go:167-170 | The header row is recognised whatever columns follow STATE. |
| RoundTrip.FlushForest | internal/zfs/status.go:124-142 | One row of lookahead over the printed rows of a vdev forest recovers its leaves in preorder. |
| RoundTrip.ScanPool | internal/zfs/status.go:144-214 | A printed pool block adds exactly the leaves of its pool, from whatever state the parser is in, unless a line in it has bad counters, which ends the scan. |
| RoundTrip.ParsePrinted | internal/zfs/status.go:114-223 | For any pools with vdev trees of any depth and width, annotated rows, role sections with spares, and any errors line, parsing the printed report gives exactly the leaves in preorder, with pool, GUID, name, path, role, state, counters and depth, if and only if no line has bad counters; otherwise it is rejected. |
| RoundTrip.SpareLines | internal/zfs/status.go:179-188 | The line of an idle spare is passed over; that of a spare in use, "INUSE currently in use", has bad counters. |
| RoundTrip.SpareInUseRejects | internal/zfs/status.go:183-188 | One spare in use makes the parser reject the report of all pools. |
| RoundTrip.AnnotationTakenForPath | internal/zfs/status.go:192-196 | A missing vdev printed with "was /dev/sdb1" and no upath column is reported under /dev/sdb1. |
| Routes.MergeSnapshots | internal/zfs/status.go:270-291 | Succeeds if and only if the snapshots have one length and agree place by place on pool, role, state, counters and depth; then each leaf is that of the path snapshot with the name of the other as GUID, its path if absolute, and its name if there is one. |
| Routes.FallbackAgrees | internal/zfs/status.go:47-89 | For one topology printed three ways, each route succeeds if and only if its reports have no line with bad counters; then both agree leaf for leaf in pool, GUID, role, state, counters and depth, and in all paths if and only if the last word of every leaf's preferred row is the path shown, or "-" for a leaf without one. |
| Routes.PreferredIsReported | internal/zfs/status.go:45-58 | When the single command succeeds and prints a clean report of pools of any shape, discovery gives exactly their leaves, whatever the other commands would say. |
| Routes.DiscoverEndings | internal/zfs/status.go:52-88 | The preferred parse if there is one; no leaves if the preferred or a failing GUID command says that there are no pools; the error of the GUID or path command if one fails; else the rejection of the first report that does not parse, or the merge. |
| Enclosure.MatchIsSole | internal/enclosure/enclosure.go:113-144 | Matching finds one slot if and only if exactly one slot carries the disk's serial (or serial and WWN, or the WWN when there is no serial), and then it is that one. |
| Enclosure.MatchIsAmbiguous | internal/enclosure/enclosure.go:113-144 | Matching finds several slots if and only if several carry the serial and the WWN singles out none of them, or, without a serial, several carry the WWN. |
| Enclosure.MatchIgnoresOrder | internal/enclosure/enclosure.go:113-144 | The order of a backend's slots does not change how many match, nor a single match. |
| Enclosure.FindSlots | internal/enclosure/enclosure.go:113-134 | The loops compute the match set. |
| Enclosure.VisitAllPlaces | internal/enclosure/enclosure.go:38-66 | Visiting the backends in turn is the declarative join: the input bay, else the bay of the first working backend with a sole match, else none, with one diagnostic for each earlier backend among whose slots the identity is ambiguous. |
| Enclosure.FirstSoleGivesBay | internal/enclosure/enclosure.go:38-66 | A disk without a bay gets the bay of its sole slot in the first working backend that has one. |
| Enclosure.FailuresAre | internal/enclosure/enclosure.go:42-46 | One diagnostic for each backend that cannot be listed, with its name and error, in the order of the backends. |
| Enclosure.SlotOrderIrrelevant | internal/enclosure/enclosure.go:47-65 | Permuting any backend's slots changes no disk. |
| Enclosure.IdentitiesAgreeIff | internal/enclosure/enclosure.go:146-148 | Two identities normalise alike if and only if, without the white space and NULs around them, they have the same length and differ at most in the case of letters. |
| Enclosure.WWNsAgreeIff | internal/enclosure/enclosure.go:150-152 | The same for WWNs, without one 0x in front. |
| Enclosure.CoreParts | internal/enclosure/enclosure.go:146-148 | Normalising takes nothing but white space and NULs off the ends, and leaves no NUL there. |
| Enclosure.NoIdentityNoBay | internal/enclosure/enclosure.go:113-134 | A disk gains a bay only from a slot whose serial, or whose WWN when the disk has no serial, is not empty and the disk's own up to padding, case and 0x. |
| Enclosure.Map | internal/enclosure/enclosure.go:35-68 | The nested loops over the array leave every disk placed by the declarative join, independently of the other disks, and report each failing backend once. |
| Inventory.Join | internal/inventory/discover.go:34-77 | One disk per leaf, in order, with its pool, GUID, role, state, counters and name; a disk whose path has an identity carries its serial, WWN, model, parent and device (the path if that is empty), any other disk none. |
| Inventory.Discover | internal/inventory/discover.go:29-78 | The whole pipeline keeps all that leaf and identity say, turns distinct leaf GUIDs into the distinct disk GUIDs reconciliation needs, gives a bay only to a disk with an identity, and gives the bay of the sole slot in the first working backend that has one for the identity. |
| Inventory.ActionableStates | internal/automation/engine.go:290-299 | Every state that calls for an action is one the status parser reports; of those it reports, only OFFLINE, AVAIL and INUSE call for none. |
| Resolver.Resolve | internal/system/block.go:50-117 | The loop over the paths gives each the identity of the physical disk under it, with missing parts, and only those, from udev, and a diagnostic for every path that is not found or whose udev answer is missing. |
| Resolver.LinkIsFollowed | internal/system/block.go:80-97 | With unique paths, a path stands for the device its link leads to, or for the device with this path if the link cannot be followed; its identity has that device's path and what lsblk says about the disk at the end of that device's climb. |
| Resolver.UnknownIsReported | internal/system/block.go:85-89 | A path that no device answers to, once its link is followed, is reported as not found by lsblk. |
| Resolver.DevicePathIs | internal/system/block.go:194-206 | The path of a device is kept; a bare name stands for an entry of /dev. |
| Resolver.FirstValueIs | internal/system/block.go:228-235 | The value of the first named property that is not blank, or nothing if all are. |
| Resolver.UdevFillsIn | internal/system/block.go:98-113 | udev fills in what lsblk does not say and nothing else, from the named properties in their order; it is asked only if something is missing, and a missing answer is reported. |
| Resolver.TroublesKept | internal/system/block.go:85-107 | The diagnostics of a path that is queried once are those of its query. |
| Resolver.TroublesAddUp | internal/system/block.go:85-107 | Queries of one path add up their diagnostics in order. |
| Resolver.OneDiskOneIdentity | internal/system/block.go:85-114 | All paths of one physical disk get the same parent device and all that lsblk says about the disk, and if udev answers them alike, the same serial, WWN, model and diagnostics. |
| Resolver.ResolvingIgnoresLayout | internal/system/block.go:85-114 | Every path resolves alike whether lsblk nests the devices or lists them flat. |
| Resolver.BayOfPhysicalDisk | internal/inventory/discover.go:54-75 | From leaf to slot: a disk whose physical device reports a serial gets a bay only from a slot with that serial up to padding and case. |
| Block.HaltsIffWithinSize | internal/system/block.go:176-192 | The climb from a device ends if and only if it ends within as many steps as there are devices. |
| Block.RankedHalts | internal/system/block.go:176-192 | If some rank falls with every step, the climb ends within the rank of its start. |
| Block.AllHaltIffRanked | internal/system/block.go:176-192 | All climbs end if and only if some rank falls with every step. |
| Block.EndUnique | internal/system/block.go:176-192 | Where a climb ends does not depend on how many steps it is allowed. |
| Block.SelfNamedPartitionNeverHalts | internal/system/block.go:183-188 | A top-level partition whose PKNAME is its own name is climbed from forever. |
| Block.BlockIndex.Add | internal/system/block.go:145-162 | The recursive registration in place yields the preorder of the tree, the path and name tables and the parent of every nested device. |
| Block.BlockIndex.Physical | internal/system/block.go:176-192 | The loop ends at the first ancestor that is no partition, or at a partition none of whose parents is known. |
| Block.ParseDevices | internal/system/block.go:138-166 | Builds the index of a device forest. |
| Layout.IndexIsSound | internal/system/block.go:143-174 | Lookups and parents lead only to listed devices: one with the very path, or one that goes by its base name; parents precede children. |
| Layout.PathLeadsBack | internal/system/block.go:168-174 | With unique paths, looking a device up by its path finds that device. |
| Layout.LastIsFound | internal/system/block.go:145-155 | Where several devices share a name or a path, the last one listed is found. |
| Layout.FindsNothingIff | internal/system/block.go:168-174 | A lookup finds nothing if and only if no device has the path or goes by its base name. |
| Layout.LayoutDoesNotMatter | internal/system/block.go:138-192 | For uniquely named devices, the nested listing and the flat listing with PKNAME give the same device for every path, and each climb ends in both after the same steps at the same device. |
| Layout.OrderDoesNotMatter | internal/system/block.go:138-192 | In whatever order uniquely named devices are listed, every path finds the same device and every climb ends at the same device. |
| Layout.ForestClimbsHalt | internal/system/block.go:176-192 | If no top-level partition names a parent, every climb ends. |
| BayNames.KeyNamesOneSlot | internal/automation/engine.go:310 | For complete bays with slash-free controllers and enclosures and colon-free backends, equal ownership keys mean the same physical slot, and only then. |
| BayNames.CollidesIff | internal/app/types.go:63-68 | A complete bay shares its key with another slot if and only if it has a slash inside its controller, inside an enclosure other than "/", or inside its slot. |
| BayNames.BaseIsLastElement | internal/backends/ses/ses.go:53 | The last element of a path is a slash or free of slashes. |
| BayNames.BaseOfPath | internal/system/block.go:149-153 | The base name of a path is the slash-free name at its end. |
| BayNames.ListedNeverCollide | internal/backends/ses/ses.go:49-60 | No two bays that the StorCLI, SES and ledctl backends can list share a key unless they are the same slot. |
| BayNames.KeysCanCollide | internal/app/types.go:63-68 | A SES slot named "1/2" shares its key with a bay that no backend lists. |
| BayNames.KeyRoundTrip | internal/backends/storcli/storcli.go:20-21 | A drive key is read if and only if it is the printed form of three digit strings, which are returned unchanged. |
| BayNames.OnlyNumberedBays | internal/backends/storcli/storcli.go:102-118 | A locate command can be built if and only if the bay is cN, eN, sN in digits, whatever text its fields hold. |
| BayNames.LocateErrors | internal/backends/storcli/storcli.go:102-118 | A refused locate command is unsupported if and only if only its action is wrong, and malformed otherwise. |
| BayNames.KeyToTarget | internal/backends/storcli/storcli.go:140-157 | Every bay read from a drive key is a StorCLI bay of the three numbers, is accepted with letter for letter the text in the key as target, and no other drive key yields its ownership key. |

## Left out

- Process execution, timeouts, contexts and real files: every command result, discovery result and system call is the environment's choice of success, failure or crash.
- JSON: the state file is absent, readable data or unreadable content; lsblk and StorCLI answers are already decoded.
- Timestamps, the free-text reason of a result, log lines, messages of errors.
- The polling loop for the lock, its timeout and file permissions: taking the lock succeeds or fails.
- Power loss: a rename counts as lasting from the moment it is made; only processes crash. Backup names are fresh.
- Losing track of the lock: the operating system releases it when its holder ends, in whatever way.
- The command line and its manual locate, which bypasses the recorded LEDs: its calls are not part of the trace.
- Engine.Enclosures.Locate: does not tell an unknown backend, an incomplete bay, a timeout and a failing LED apart, nor model the per-target mutex; to the automation each is a call that failed.
- The SES and ledctl backends: a backend is a name with a list of slots or an error, and the list does not depend on assigned bays.
- StorCLI attributes, controller status and the sorting of slots: only the grammar of drive keys and locate targets is modelled.
- Running lsblk and udevadm, following symbolic links, and path cleaning: their results are arguments and paths are clean already.
- Text outside ASCII: white space and upper case are those of ASCII.
- RoundTrip.ParsePrinted: names have no white space and do not start with "pool:" or "errors:", and a row that starts with "NAME" does not contain "STATE", since the parser takes such rows for other lines; sections are not indented deeper than those before them, since their devices would be taken for children.
- Routes.FallbackAgrees: does not claim that every change between the two snapshots is noticed; two leaves that agree on everything visible can be swapped unnoticed.
- Block.BlockIndex.Physical: requires that the climb ends, since the code has no guard; the exact condition is Block.HaltsIffWithinSize.
- Engine.Transaction.HandleCallback: marking the event is one helper here where the source repeats it in two places.
- Resolver.Resolve: requires that the climbs from the devices it finds end, since the code would not return otherwise.
