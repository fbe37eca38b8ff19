# tns-csi: verified models

A Dafny model of the parts of the tns-csi driver where a wrong step loses data: the volume
lifecycle against a TrueNAS server whose calls may fail, the rules that keep snapshots and
clones alive, the decision to format a disk, and the locks, caches, codecs, parsers and
pagers around them. `dafny verify dfyconfig.toml` checks everything.

## How it is modelled

* **The server.** `Nas.Client` holds the store (ZFS pool, extents, targets, LUN mappings,
  namespaces, subsystems) and a schedule of outcomes. Each API call consumes one outcome and
  ends as asked (`Fine`), failed without effect (`Lost`), or failed although it took effect
  (`Applied`). All results about volumes hold for every schedule. The client also logs the
  calls that take an NVMe-oF presentation away, with what each reported. `Zfs` gives the pool its
  rules: promote moves the origin snapshot and all older ones, a destroy is refused while a
  snapshot has a clone, a deferred snapshot goes with its last clone.
* **The driver's operations** are methods on that client, in the order of calls of the
  source, proved against relations between the store before and after: `IscsiCreate.Attempt`,
  `IscsiDelete.Deletion`, `NvmeDelete.Deletion`, `Snapshots.SnapshotAttempt`,
  `Snapshots.SnapshotDrop`. The run theorems are lemmas over sequences of steps related
  that way, so they hold for any number of interrupted, failed and retried calls.
* **Concurrency.** The per-key lock, the CreateVolume guard and the dashboard cache are step
  relations over arbitrarily many goroutines, with an invariant kept by every step. The
  critical sections in these steps are functions of their own (`Entered` and `Released`,
  `Taken` and `GivenBack`, `Cached` and `Stored`), and the methods of the classes beside them
  compute exactly these.
* **Devices.** Probes, waits and formats may answer anything; the decision code leaves a
  trace, and the theorems are about every such trace.

Files follow the source: `Results`, `Text` (shared), `Zfs`, `Nas` (the server), `CreateGuard`,
`IscsiCreate`, `Ownership`, `Promotion`, `SnapshotGuard`, `IscsiDelete`, `Lifecycle`,
`NvmeDelete`, `Snapshots`, `SnapshotRuns` (controller), `KeyedMutex`, `FormatDecision`, `SessionParser`, `NfsOptions` (node),
`SnapshotId`, `ListPaging`, `NfsAccess` (controller), `LookupCache`, `DashboardPaging`
(dashboard).

## Where the code falls short of its promise

Each is stated as an exact condition, with a concrete case.

* A repeated create returns the same identifiers if and only if the volume's recorded
  identifiers and its names do not point at two different presentations
  (`RepeatReturnsTheSame`, `DisagreementBreaksTheRepeat`, `DisagreementExists`).
* A delete leaves nothing of the volume behind if and only if every object of the volume was
  recorded on its ZVOL; the create treats a failed write of these records as harmless
  (`IscsiDelete.NothingLeftIffRecorded`, `UnrecordedVolumeExists`).
* For NVMe-oF that holds if and only if, besides, the server does not silently ignore the
  deletion of a bound subsystem, or there was no subsystem, or it had no port, or by the
  schedule of outcomes the port query is answered and no unbinding is lost
  (`NvmeDelete.NothingLeftIffRecorded`, with `Leaks` defined on the store and the schedule the
  delete begins with). On such a server every delete whose only failure is the port query
  succeeds and leaves the subsystem behind (`BoundSubsystemLeaks`), and where a clone keeps the
  ZVOL it clears the subsystem's record, so that no retry finds it
  (`BoundSubsystemIsForgotten`).
* The comment at `pkg/driver/controller.go:503` wants a source whose snapshot has a clone to
  stay. Promotion takes older snapshots along, so after a clean one the source can be destroyed
  if and only if the newest of its snapshots with a clone is deferred, or none has one
  (`CanDestroyIffNewestDeferred`); an older snapshot that is not deferred and has a clone does
  not keep it (`CarriedOff`).
* `DeleteSnapshot` with an old-format volume ID takes the snapshot of the first reported
  dataset whose path contains the ID. It releases a protected snapshot if and only if it
  resolved the ID to its dataset (`DropTakesIff`), and an answered query resolves the ID to
  its own dataset in every order of the answer if and only if no other dataset with a
  snapshot of that name contains the ID (`ResolvesToOwnIff`). So a delete for `pvc-1` can take
  the snapshot of `pvc-10` (`AnotherVolumesSnapshotIsTaken`), and with a failed query it
  reports success and deletes nothing (`UnansweredDropKeepsSnapshot`).
* `CreateSnapshot` may answer "already exists" with a snapshot that lacks `snapshot_id`; the
  deletion guard does not see it, and the next `DeleteVolume` destroys it (`GuardIsExact`,
  `IdempotentSnapshotLost`, `UnmarkedSnapshotExists`).
* The comment at `pkg/driver/node_device.go:480` says only a confirmed blank device has empty
  output and no error. That needs "blkid with exit code 0 prints something": when lsblk names
  a file system and blkid succeeds silently, a new volume is formatted (`AuthorizesIff`,
  `HollowExists`).
* A dashboard result is older than the TTL promises if and only if its caller joined a lookup
  that had been recorded a TTL before the call began and was not yet handed over
  (`ResultsAreFresh`, `SlowFlightIsStale`).
* Encoding accepts any protocol name, decoding only four; an ID of another protocol can be
  read as another snapshot's (`RoundTrip`, `UnsupportedMayCollide`).

## Model

| member | source | states |
|---|---|---|
| Nas.Client.DeleteDataset | pkg/tnsapi/client.go:1330-1373 | A recursive destroy succeeds exactly when no snapshot of the dataset has a clone; a failure may still have taken effect, and the pool stays well formed. |
| Nas.Client.PromoteDataset | pkg/tnsapi/client.go:2394-2410 | A promote swaps a clone with the dataset it came from, or changes nothing. |
| Nas.Client.DeleteSnapshot | pkg/tnsapi/client.go:2236-2259 | A snapshot without clones goes at once; one with clones is only marked for deferred destruction. |
| Zfs.PromotePlaces | pkg/driver/controller.go:517-521 | After a promote the origin snapshot and all older ones are on the clone, every other snapshot is where it was. |
| Zfs.PromoteKeepsWf | pkg/driver/controller.go:517-521 | Promotion keeps every snapshot on one dataset, every origin present, and no dataset descending from itself. |
| Zfs.PromoteConserves | pkg/driver/controller.go:517-521 | Promotion loses and adds no dataset and no snapshot, and makes none an origin that was not one. |
| Zfs.DestroyKeepsWf | pkg/tnsapi/client.go:1330-1373 | Destroying a dataset removes just that dataset, and with the last clone of a deferred snapshot also that snapshot, and keeps the pool well formed. |
| CreateGuard.InFlight.Enter | pkg/driver/controller.go:600-607 | A name in progress is refused with Aborted and nothing changes; any other is taken. |
| CreateGuard.CallsAreSerial | pkg/driver/controller.go:600-607 | In every interleaving, while one call for a name has entered and not left no other enters for it. |
| CreateGuard.EntersIffFree | pkg/driver/controller.go:600-607 | A call enters exactly if no running call has its name, and otherwise is refused. |
| IscsiCreate.TargetMapsExtent | pkg/driver/controller_iscsi.go:725-747 | True exactly when the target maps that extent at LUN 0 and nothing else. |
| IscsiCreate.EnsureProps | pkg/driver/controller_iscsi.go:513-548 | The recorded properties become the volume's, best effort, and nothing else changes; without faults missing identifiers are written. |
| IscsiCreate.FindByStoredProperties | pkg/driver/controller_iscsi.go:455-511 | A volume is found by its recorded identifiers only if they still present its ZVOL at LUN 0, and is returned with the recorded IQN and the size asked for; the search changes nothing. |
| IscsiCreate.FindByName | pkg/driver/controller_iscsi.go:384-432 | A volume is found by name only if extent and target of that name present the ZVOL and the target maps nothing else; it is returned under the configured base name, a colon and its own name. |
| IscsiCreate.HandleExisting | pkg/driver/controller_iscsi.go:344-432 | What is returned for an existing ZVOL, from which path, with which size and IQN, and when it is refused. |
| IscsiCreate.GetOrCreateZvol | pkg/driver/controller_iscsi.go:550-612 | The ZVOL is reused, or created and noted as this call's. |
| IscsiCreate.GetOrCreateExtent | pkg/driver/controller_iscsi.go:618-652 | A same-named extent is reused only if it backs this ZVOL; a new one is noted as this call's. |
| IscsiCreate.ResolveGroups | pkg/driver/controller_iscsi.go:656-684 | The portal and initiator group are those asked for or else the server's first; it fails only when a query fails or there is none. |
| IscsiCreate.GetOrCreateTarget | pkg/driver/controller_iscsi.go:686-723 | A same-named target is reused; a new one is noted as this call's. |
| IscsiCreate.EnsureMapped | pkg/driver/controller_iscsi.go:750-762 | On success the target maps exactly the extent at LUN 0; a target that maps anything else is refused. |
| IscsiCreate.Cleanup | pkg/driver/controller_iscsi.go:321-341 | Cleanup removes nothing but the objects this call created, whatever of it fails. |
| IscsiCreate.CreateIscsiVolume | pkg/driver/controller_iscsi.go:185-304 | Under any faults: a returned volume exists with a fitting size, its extent's disk is its ZVOL and its target maps just that extent at LUN 0; it has the size asked for and the IQN of its name, or the recorded one if the recorded identifiers present it; a failed call leaves all that existed unchanged; only this volume's objects are added, a target with the configured groups; a resumable state stays resumable and without faults is completed; which identifiers are returned; without faults they are recorded on the ZVOL; and an error says what is the matter: AlreadyExists a ZVOL of another size or foreign leftovers, FailedPrecondition no portal or initiator group, Internal a failed call. |
| IscsiCreate.SuccessIsUsable | pkg/driver/controller_iscsi.go:153-180 | What a returned volume is, in literal paths, names and properties: ZVOL, disk, LUN 0, IQN, target groups, and on a new ZVOL whose it is and its delete strategy. |
| IscsiCreate.FirstCreate | pkg/driver/controller_iscsi.go:206-304 | Where nothing carries the volume's name, a call without faults creates it, and one with a single call lost leaves the server as it was. |
| IscsiCreate.InterruptedAttemptsConverge | pkg/driver/controller_iscsi.go:206-265 | After any number of attempts interrupted anywhere, cleanup included, and with calls for other names in between, the leftovers can be resumed, and the next attempt without faults succeeds. |
| IscsiCreate.AttemptsTouchNothing | pkg/driver/controller_iscsi.go:321-341 | Over such a run nothing that existed before it is changed or removed except by calls for other names. |
| IscsiCreate.AttemptsAddOnlyTheirOwn | pkg/driver/controller_iscsi.go:185-304 | Whatever attempts in a row add belongs to this volume: its extent, target and ZVOL, and the one mapping between them. |
| IscsiCreate.FoundStaysFound | pkg/driver/controller_iscsi.go:344-432 | A volume that can be found stays the one found, and every later success returns it. |
| IscsiCreate.EverySuccessReturnsTheSame | pkg/driver/controller_iscsi.go:185-304 | After one success all later successes, with any failures and other names' calls in between, return the same identifiers if names and records agree. |
| IscsiCreate.RepeatReturnsTheSame | pkg/driver/controller_iscsi.go:344-432 | A repeat without faults, after any calls for other names, succeeds with the same identifiers if names and records agree, and returns the very same volume exactly if no target has the volume's name or the first call returned the IQN of that name. |
| IscsiCreate.DisagreementBreaksTheRepeat | pkg/driver/controller_iscsi.go:366-377 | If they disagree, a first call whose name lookup fails returns identifiers that the repeat does not. |
| IscsiCreate.DisagreementExists | pkg/driver/controller_iscsi.go:366-377 | Such a state: a recorded target beside a same-named one. |
| Ownership.ReadOwnership | pkg/driver/volume_delete.go:54-97 | The properties authorize the delete, the dataset is gone, or the call fails closed: unreadable properties and foreign ones never authorize. |
| Ownership.BelongsToItsVolume | pkg/driver/volume_delete.go:83-90 | A dataset that names its volume authorizes a delete for no other volume name. |
| Ownership.PathBelongs | pkg/driver/volume_delete.go:83-90 | A volume ID that is a path authorizes the delete of the volume its last part names. |
| Ownership.VerdictInWords | pkg/driver/volume_delete.go:61-97 | How the checks before any change end a delete, by the literal property values: foreign, "retain", unreadable snapshots, a protected snapshot, or on to the teardown. |
| IscsiDelete.OwnedTarget | pkg/driver/volume_delete.go:151-172 | Whether the target is there and is the volume's own; a failed lookup is an error, not an answer. |
| IscsiDelete.OwnedExtent | pkg/driver/volume_delete.go:174-194 | The same of the extent, which must be backed by the ZVOL. |
| IscsiDelete.ClearTargetId | pkg/driver/volume_delete.go:111-125 | A recorded identifier is cleared only when its object is gone, best effort. |
| IscsiDelete.DeletePresentation | pkg/driver/controller_iscsi.go:811-855 | Mappings, then target, then extent are removed, each only if owned; success means both are gone, and without faults also forgotten. |
| IscsiDelete.DeleteIscsiVolume | pkg/driver/controller_iscsi.go:857-951 | Under any faults only owned objects go; the ZVOL goes only when its target, extent and mappings are gone, and not at all while its newest snapshot with a clone is not deferred, which no failed attempt changes; a ZVOL already gone and a retained one are success as soon as the lookup is answered; an unanswered check is Unavailable, foreign ownership or a protected snapshot FailedPrecondition, and in all these nothing changes; other datasets keep size, properties and snapshots; a deletable volume stays deletable, without faults its delete succeeds, and identifiers are forgotten; otherwise FailedPrecondition means a snapshot with a clone, Unavailable or Internal a failed call. |
| IscsiDelete.RetainedIsKept | pkg/driver/controller_iscsi.go:877-881 | With delete strategy "retain" nothing changes, and for its owner that is success. |
| IscsiDelete.OnlyOwnGoes | pkg/driver/volume_delete.go:127-194 | In literal names and devices: targets not named after the volume or its IQN, extents on other devices, their mappings and other datasets stay. |
| IscsiDelete.OwnGoes | pkg/driver/volume_delete.go:127-194 | And a delete without faults takes the target and extent it knows of if they are such. |
| IscsiDelete.EffectiveInWords | pkg/driver/controller_iscsi.go:797-808 | A recorded identifier replaces a known one; none is filled in where the caller knows none. |
| IscsiDelete.NothingLeftIffRecorded | pkg/driver/controller_iscsi.go:899-907 | The attempt that deletes the ZVOL leaves no target, extent or mapping of the volume exactly if all of them were recorded. |
| IscsiDelete.UnrecordedVolumeExists | pkg/driver/controller_iscsi.go:296-298 | A volume whose identifiers were never written can be deleted and then leaves its target behind. |
| IscsiDelete.DeletesLeaveNothing | pkg/driver/controller_iscsi.go:899-907 | Over any failing and retried deletes, with snapshots of the volume coming and going and other volumes changing and reusing identifiers in between, everything stays recorded while the ZVOL is there and nothing is left when it goes. |
| IscsiDelete.RetryFinishes | pkg/driver/controller_iscsi.go:857-951 | After any attempts that failed or were refused, and any other calls, one without faults succeeds once the volume is deletable, and leaves nothing of a recorded volume. |
| IscsiDelete.GoneIsDeleted | pkg/driver/controller_iscsi.go:871-875 | Over any run, once the ZVOL is gone every attempt whose lookup is answered succeeds, and none changes anything. |
| IscsiDelete.StuckStays | pkg/driver/controller.go:502-508 | However often its delete is tried and whatever fails, a volume whose newest snapshot with a clone is not deferred stays, unless other calls change that. |
| IscsiDelete.DeletableThroughout | pkg/driver/controller_iscsi.go:857-951 | Failed attempts leave a deletable volume deletable, also where clones must be promoted first. |
| Lifecycle.CreatedIsRecorded | pkg/driver/controller_iscsi.go:279-298 | In a store with nothing of the volume, a create without faults leaves every target and extent of it recorded. |
| Lifecycle.DeleteUndoesCreate | pkg/driver/controller_iscsi.go:857-951 | Such a create and a delete, whatever of the delete fails, that ends with the ZVOL gone give back all tables and the same datasets. |
| NvmeDelete.Verify | pkg/driver/controller_nvmeof.go:720-753 | Recorded identifiers replace the caller's; a missing ZVOL still lets the presentation be cleaned up; retain stops the delete; an unanswered lookup is Unavailable, foreign ownership FailedPrecondition. |
| NvmeDelete.RemoveNamespace | pkg/driver/controller_nvmeof.go:948-1016 | Only an owned namespace is deleted, the subsystem is not touched; success means the namespace is gone, that its last delete said so, and that the lookup was answered; if every failure counts as passing it fails only when by the schedule twelve deletes in a row do, or the lookup. |
| NvmeDelete.UnbindPorts | pkg/driver/controller_nvmeof.go:904-921 | Port bindings of the owned subsystem are removed one by one, one call each; none is left exactly if there was none, or the query was answered and no unbinding was lost. |
| NvmeDelete.RemoveSubsystem | pkg/driver/controller_nvmeof.go:859-946 | Only an owned subsystem is unbound and deleted, and not when the answered query shows a namespace attached; after success it is still there exactly if the server is silent, it was bound, and by the schedule unbinding it failed; its record is cleared only after a success. |
| NvmeDelete.DeleteNvmeVolume | pkg/driver/controller_nvmeof.go:755-857 | Under any faults: every removal called for is of the volume's own namespace or subsystem; no call about the subsystem unless the namespace was looked up and, if it was the volume's, its last delete reported it gone; no ZVOL delete before both are gone, but for a silently kept subsystem, nor while its newest snapshot with a clone is not deferred; no call and no change for a retained, foreign or protected volume, nor when its properties or snapshots cannot be read; a delete in which nothing fails but the unbinding succeeds on a silent server too; an unanswered check is Unavailable, foreign ownership or a protected snapshot FailedPrecondition, a clone left at the end too, and every other error comes from a failed call or a foreign namespace on the subsystem. |
| NvmeDelete.RetainedIsKept | pkg/driver/controller_nvmeof.go:774-782 | With delete strategy "retain" nothing changes and no removal is called for, and for its owner that is success. |
| NvmeDelete.OrphansAreRemoved | pkg/driver/controller_nvmeof.go:735-739 | With the ZVOL already gone a delete without faults removes the namespace and subsystem the caller knows of, and succeeds. |
| NvmeDelete.OnlyOwnGoes | pkg/driver/volume_delete.go:196-244 | In literal devices and names: namespaces on other devices, subsystems with another NQN or, without one recorded, not named after the volume, and other datasets stay. |
| NvmeDelete.OwnGoes | pkg/driver/volume_delete.go:196-244 | And a delete without faults takes the namespace and subsystem it knows of if they are such. |
| NvmeDelete.EffectiveInWords | pkg/driver/controller_nvmeof.go:741-748 | A recorded identifier replaces the caller's and fills in a missing one. |
| NvmeDelete.NothingLeftIffRecorded | pkg/driver/controller_nvmeof.go:800-804 | The attempt that deletes the ZVOL leaves nothing of the volume exactly if all was recorded and, by the store and the schedule it began with, the server does not silently keep the subsystem: it refuses to delete bound subsystems, or there was none, or it was not bound, or the port query is answered and no unbinding is lost. |
| NvmeDelete.LeakIsForGood | pkg/driver/controller_nvmeof.go:904-945 | Where the teardown goes through with the subsystem silently kept, every delete leaves it behind, with its record cleared or gone. |
| NvmeDelete.BoundSubsystemLeaks | pkg/driver/controller_nvmeof.go:904-921 | With a silent server, a bound subsystem and a schedule in which only the port query fails, every delete succeeds and leaves the subsystem. |
| NvmeDelete.BoundSubsystemIsForgotten | pkg/driver/controller_nvmeof.go:943-945 | If besides a clone keeps the ZVOL, every such delete fails with the subsystem there and its record cleared. |
| NvmeDelete.QuietDeleteLeavesNothing | pkg/driver/controller_nvmeof.go:904-921 | Without faults a delete succeeds and leaves nothing of a volume exactly if it was recorded, on a silent server too. |
| NvmeDelete.QuietDeleteForgets | pkg/driver/controller_nvmeof.go:943-945 | Without faults no identifier of what was removed stays recorded. |
| NvmeDelete.AttemptKeepsRecorded | pkg/driver/controller_nvmeof.go:755-857 | A failed attempt leaves everything of the volume recorded, unless it touched a subsystem that by its schedule is silently kept. |
| NvmeDelete.DeletesAreOrdered | pkg/driver/controller_nvmeof.go:814-828 | Over any failing and retried deletes and other calls: in the calls of each attempt none about the subsystem follows a namespace delete unless the last of these reported the namespace gone, and then it is. |
| NvmeDelete.DeletesLeaveNothing | pkg/driver/controller_nvmeof.go:800-836 | Over such a run everything stays recorded while the ZVOL is there and nothing of a recorded volume is left when it goes, on any server, unless an attempt left a bound subsystem to a silent one. |
| NvmeDelete.LoudDeletesLeaveNothing | pkg/driver/controller_nvmeof.go:800-836 | Without that exception where the server refuses to delete bound subsystems. |
| NvmeDelete.RetryFinishes | pkg/driver/controller_nvmeof.go:800-804 | After any attempts that failed or were refused, and any other calls, one without faults succeeds once the volume is deletable, and leaves nothing of a recorded volume unless an attempt before left a bound subsystem to a silent server. |
| NvmeDelete.StuckStays | pkg/driver/controller.go:502-508 | However often its delete is tried and whatever fails, a volume whose newest snapshot with a clone is not deferred stays, unless other calls change that. |
| NvmeDelete.DeletableThroughout | pkg/driver/controller_nvmeof.go:800-804 | Failed attempts leave a deletable volume deletable. |
| Promotion.PromotingStep | pkg/driver/controller.go:541-557 | Promoting one listed clone, from a stale list in any order, keeps the pool acyclic, loses nothing, adds no snapshot to the source and takes the clone's origin off it. |
| Promotion.PendingCanPromote | pkg/driver/controller.go:544-556 | Every clone still to be promoted can be, if no name of its snapshots clashes with one of the source's. |
| Promotion.PromoteClonesOfDeferred | pkg/driver/controller.go:522-559 | The source only loses snapshots, no dataset or snapshot is lost, snapshots that were not the source's stay in place; if listing and promotes succeed, which takes no more than calls that do not fail and names that do not clash, no deferred snapshot left on the source has a clone. |
| Promotion.CanDestroyIffNewestDeferred | pkg/driver/controller.go:517-521 | After a promotion in which nothing failed the source can be destroyed exactly if the newest of its snapshots with a clone was deferred, or none had one. |
| Promotion.OthersStayBlocked | pkg/driver/controller.go:517-521 | Otherwise it stays blocked, whatever fails. |
| Promotion.OthersStayStuck | pkg/driver/controller.go:517-521 | Nor does its newest snapshot with a clone change, so no later promotion can clear the way. |
| Promotion.PromotedRemovable | pkg/driver/controller.go:544-556 | A promotion cut short anywhere leaves a source the next one can still clear. |
| Promotion.CarriedOff | pkg/driver/controller.go:503-509 | A source with an older snapshot that is not deferred and has a clone, which promotion clears all the same. |
| SnapshotGuard.HasCsiSnapshots | pkg/driver/controller.go:427-464 | Answers whether the dataset has a snapshot with snapshot_id that is not deferred, or fails when the listing fails. |
| SnapshotGuard.DeleteDatasetSnapshots | pkg/driver/controller.go:474-515 | Cleaning up removes no snapshot that CSI owns or that has a clone, changes none and touches no other dataset, whatever fails; without faults all others are gone. |
| SnapshotGuard.TryPromoteAndDelete | pkg/driver/controller.go:561-576 | Promote and retry: success means the dataset is gone; when the newest snapshot with a clone was deferred and every promote succeeded, nothing but a failure of the retried delete itself keeps it; when it was not, it stays blocked. |
| SnapshotGuard.DestroyIscsiZvol | pkg/driver/controller_iscsi.go:910-949 | The ZVOL is destroyed at once when it can be, and if failures count as passing also after up to twelve of them; without faults and clashing names it goes exactly if its newest snapshot with a clone is deferred or none has one, and whatever fails it stays otherwise, with that snapshot; in every case protected and other datasets' live snapshots stay, and it becomes no harder to remove; the error is FailedPrecondition exactly if a clone was reported at first. |
| SnapshotGuard.DestroyNvmeZvol | pkg/driver/controller_nvmeof.go:1019-1066 | The same of the NVMe-oF path, which cleans up and retries after an unresolved clone dependency as well and reports one that is left as FailedPrecondition. |
| Snapshots.CreateRegularSnapshot | pkg/driver/controller_snapshot.go:311-443 | The pool is unchanged or has exactly one new snapshot of that name on that dataset; success is a new protected snapshot or one that was already there, and without faults a free name succeeds; when a single call is lost and the call fails, no snapshot is left behind; a name taken elsewhere is a conflict when the query was answered. |
| Snapshots.DeleteRegularSnapshot | pkg/driver/controller_snapshot.go:477-551 | Nothing is released but snapshots of that name on the one dataset the ID was resolved to; success means the snapshot was not there or is deleted, at once or with its last clone; an ID that cannot be resolved is reported as deleted and changes nothing. |
| Snapshots.DropTakesIff | pkg/driver/controller_snapshot.go:512-548 | A successful delete releases a protected snapshot of the name exactly if the ID was resolved to its dataset. |
| Snapshots.ResolvesToOwnIff | pkg/driver/controller_snapshot.go:529-547 | For an old-format ID an answered query gives its own dataset in every order exactly if that has the snapshot and no other dataset with a snapshot of the name contains the ID. |
| SnapshotRuns.AnotherVolumesSnapshotIsTaken | pkg/driver/controller_snapshot.go:537-546 | A delete for pvc-1 takes the protected snapshot of pvc-10. |
| SnapshotRuns.UnansweredDropKeepsSnapshot | pkg/driver/controller_snapshot.go:481-487 | With a failed query a delete succeeds although its snapshot stays. |
| SnapshotRuns.ProtectedSurvives | pkg/driver/controller.go:427-464 | A protected snapshot stays, unchanged and in place, through every run in which no delete of its name was resolved to its dataset. |
| SnapshotRuns.UnaimedIsNeverDropped | pkg/driver/controller_snapshot.go:522-546 | That is so, whatever the queries answer, if no ID of such a delete is its dataset's path or, without a slash, part of it. |
| SnapshotRuns.NewSnapshotsSurvive | pkg/driver/controller_snapshot.go:393-414 | Every snapshot CreateSnapshot newly made survives every such run, whatever calls fail. |
| SnapshotRuns.NewNamesAreUnique | pkg/driver/controller_snapshot.go:316-367 | A new snapshot's name is on no other dataset when the uniqueness query was answered. |
| SnapshotRuns.IscsiDeletionIsVolumeGone | pkg/driver/controller_iscsi.go:882-897 | An iSCSI DeleteVolume is a step those runs may take. |
| SnapshotRuns.NvmeDeletionIsVolumeGone | pkg/driver/controller_nvmeof.go:784-800 | So is one over NVMe-oF. |
| SnapshotRuns.GuardIsExact | pkg/driver/controller.go:444-462 | With no other obstacle a delete without faults destroys the volume exactly if it has no protected snapshot. |
| SnapshotRuns.IdempotentSnapshotSurvives | pkg/driver/controller_snapshot.go:338-367 | A snapshot returned as already existing survives if it is protected. |
| SnapshotRuns.IdempotentSnapshotLost | pkg/driver/controller_snapshot.go:338-367 | If nothing on its volume is protected after the call that returned it, the snapshot is there and the next delete takes it along. |
| SnapshotRuns.UnmarkedSnapshotExists | pkg/driver/controller_snapshot.go:338-367 | Such a state exists. |
| KeyedMutex.Mutex.Enter | pkg/driver/node_filesystem.go:40-52 | The first critical section of lock: the key's entry, made if missing, has one more reference. |
| KeyedMutex.Mutex.Release | pkg/driver/node_filesystem.go:70-77 | A reference less, and with the last one the key leaves the table. |
| KeyedMutex.StepInv | pkg/driver/node_filesystem.go:35-77 | Every step of any goroutine keeps the accounting of tokens, references and table entries. |
| KeyedMutex.AtMostOneHolder | pkg/driver/node_filesystem.go:54-63 | In every reachable state at most one goroutine holds a key. |
| KeyedMutex.Accounting | pkg/driver/node_filesystem.go:25-28 | Tokens in the channel and with goroutines are one; references are the goroutines between acquire and release; each one's entry is the one in the table. |
| KeyedMutex.ReturnNeverBlocks | pkg/driver/node_filesystem.go:54-63 | Handing the token back never blocks. |
| KeyedMutex.WaiterProceeds | pkg/driver/node_filesystem.go:54-67 | A waiter can take the token exactly when nobody holds its key, whatever other keys do. |
| KeyedMutex.TableHasKeysInUse | pkg/driver/node_filesystem.go:70-77 | The table has exactly the keys in use, so it is empty when all are done. |
| KeyedMutex.NoDeadlock | pkg/driver/node_filesystem.go:35-77 | While a goroutine is not done, a step of it or of another goroutine on its key is possible that brings one of them nearer its end, without any cancellation. |
| KeyedMutex.AllGetDone | pkg/driver/node_filesystem.go:35-77 | Once nobody new arrives every run stops within a bound, and only with all done and the table empty. |
| FormatDecision.AuthorizesIff | pkg/driver/node_device.go:402-460 | An empty answer without error is the explicit no-signature answer or a silent blkid after a named file system; only the first is meant as "needs format". |
| FormatDecision.HollowExists | pkg/driver/node_device.go:435-438 | The second kind exists and authorizes a format. |
| FormatDecision.ReadingsAre | pkg/driver/node_device.go:402-460 | Every probe saw a signature, confirmed the device blank, is the silent one, or says nothing; which, in terms of what lsblk and blkid answered. |
| FormatDecision.Node.RetryCheck | pkg/driver/node_device.go:296-328 | Checks go on exactly while they settle nothing, at most max of them; the answer is the last one's; the waits are exactly those of the doubling backoff between the probes made. |
| FormatDecision.Node.NeedsFormat | pkg/driver/node_device.go:231-278 | The answer is that of the last probe, a clone is never to be formatted, a cancelled wait is an error. |
| FormatDecision.BackoffIsCappedDoubling | pkg/driver/node_device.go:302-309 | The wait before check i is 200 ms doubled i-1 times, at most 10 s. |
| FormatDecision.CheckWaitsAre | pkg/driver/node_device.go:239-262 | A whole check makes at most 25 probes for a clone and 3 for a new volume, and waits at most 192.6 s and 0.6 s, plus 3 s on NVMe. |
| FormatDecision.Node.HandleFormatting | pkg/driver/node_block_device.go:128-183 | Every format follows at once a probe that authorizes it, nothing follows a signature or a format that did not fail as busy; at most 5 formats and 6 checks, whose waits stay within 6 checks' bound, and between formats exactly the doubling backoff, at most 62 s; formatted is reported exactly when the last event is a successful format, kept exactly when it is a signature, and an error only after a cut wait, a broken format, a failed probe, a blank clone or the fifth busy format. |
| FormatDecision.FormatIsConfirmed | pkg/driver/node_block_device.go:151-182 | A format runs on no clone, after no signature, and right after an explicit no-signature answer unless that probe was the silent one. |
| FormatDecision.SignatureIsKept | pkg/driver/node_block_device.go:143-147 | A probe that reads a signature ends the run with the device kept, and if it is the first probe nothing was formatted. |
| FormatDecision.FirstSignatureDecides | pkg/driver/node_device.go:429-443 | If the first probe reads a file system that blkid confirms, the device is kept after that one check. |
| SnapshotId.RoundTrip | pkg/driver/controller_snapshot.go:122-168 | What is encoded decodes to the same protocol, volume, short name and flag exactly if the protocol is one of the four, with ':', '@' and '/' allowed in volumes. |
| SnapshotId.FormatInWords | pkg/driver/controller_snapshot.go:105-146 | The ID is protocol:volume@name, with "detached:" before it for a detached snapshot; the protocols are nfs, nvmeof, iscsi and smb. |
| SnapshotId.DecodedEncodesBack | pkg/driver/controller_snapshot.go:152-212 | Every accepted ID is the encoding of what it decodes to. |
| SnapshotId.EncodeInjective | pkg/driver/controller_snapshot.go:122-146 | Snapshots share an ID only if they agree in all it keeps, so detached and plain never collide. |
| SnapshotId.DecodeInjective | pkg/driver/controller_snapshot.go:170-212 | No two IDs decode to the same snapshot. |
| SnapshotId.UnsupportedMayCollide | pkg/driver/controller_snapshot.go:122-146 | An ID of an unsupported protocol can equal one of another snapshot. |
| LookupCache.KeyInjective | pkg/dashboard/cache.go:41 | Queries without NUL share no key. |
| LookupCache.KeysCollideOnNul | pkg/dashboard/cache.go:41 | With NUL they can. |
| LookupCache.StepInv | pkg/dashboard/cache.go:40-67 | Every step of callers, lookups and the clock keeps entries, flights and callers consistent. |
| LookupCache.OnlyAnswersAreCached | pkg/dashboard/cache.go:43-58 | Only an answered lookup changes the cache, and only under its own key: errors never do; what it stores answers until a TTL later and not after. |
| LookupCache.HitIsRecorded | pkg/dashboard/cache.go:43-47 | A hit returns a recorded lookup of exactly that query, less than a TTL old. |
| LookupCache.StepDooms | pkg/dashboard/cache.go:50-66 | A step puts a caller on the way to a stale result exactly if it joins it to a lookup recorded a TTL before it began, and no step puts it off that way. |
| LookupCache.ResultsAreFresh | pkg/dashboard/cache.go:38-67 | Over every interleaving each result is a backend answer to its query, and recorded later than the call's start minus the TTL exactly if the caller never joined a lookup that had been recorded a TTL before it began. |
| LookupCache.SlowFlightIsStale | pkg/dashboard/cache.go:50-66 | A run in which such a join returns a stale result. |
| SessionParser.SelectPortal | pkg/driver/node_iscsi_portal.go:72-88 | The portal if exactly one matches, otherwise which error. |
| SessionParser.PortalOrderIrrelevant | pkg/driver/node_iscsi_portal.go:72-88 | The order and repetition of lines make no difference. |
| SessionParser.RecordInWords | pkg/driver/node_iscsi_portal.go:75-79 | A record "portal target" gives its portal exactly if the target is the wanted one and the portal matches. |
| SessionParser.SessionDisk | pkg/driver/node_iscsi_portal.go:93-128 | The one disk attached under the wanted target after a matching portal line, "" if there is none, an error exactly if there are two. |
| SessionParser.CollectedIsDisks | pkg/driver/node_iscsi_portal.go:97-126 | Reading line by line collects exactly the declared set of disks. |
| SessionParser.SessionInWords | pkg/driver/node_iscsi_portal.go:97-126 | A session printed as Target, Current Portal and Attached scsi disk lines gives its disk exactly if target and portal are the wanted ones. |
| ListPaging.ListVolumes | pkg/driver/controller.go:1337-1391 | A page starts after its token's entry, an unknown token is Aborted, and a next token is given exactly while entries are left. |
| ListPaging.PageIsBounded | pkg/driver/controller.go:1366-1388 | A page has at most max entries and its last one's ID as the next token, or if max is not positive all that is left. |
| ListPaging.VolumeWalkIsComplete | pkg/driver/controller.go:1347-1388 | Following the tokens yields every volume once and in order exactly if the ID at each page end is the first of its kind. |
| ListPaging.DistinctIsUnambiguous | pkg/driver/controller.go:1347-1388 | Distinct IDs meet that condition. |
| ListPaging.VolumeWalkEnds | pkg/driver/controller.go:1347-1388 | The walk ends then. |
| ListPaging.TokenRoundTrip | pkg/driver/controller_snapshot_list.go:18-30 | An offset is read back from its token. |
| ListPaging.ItoaIsDecimal | pkg/driver/controller_snapshot_list.go:18-20 | Tokens are decimal numbers. |
| ListPaging.ListSnapshots | pkg/driver/controller_snapshot_list.go:261-325 | One page by offset, bad tokens Aborted, offsets out of range an empty page, entries that cannot be encoded skipped. |
| ListPaging.UnpagedIsAll | pkg/driver/controller_snapshot_list.go:261-325 | Without a page size there is one page of all that can be encoded; a token that is no number is refused, an offset outside the list gives nothing. |
| ListPaging.ListedOne | pkg/driver/controller_snapshot_list.go:296-318 | A snapshot is listed under its encoded ID, or skipped if it has none. |
| ListPaging.SnapshotWalkIsComplete | pkg/driver/controller_snapshot_list.go:261-325 | Every walk from the empty token yields each snapshot that can be encoded exactly once and in order. |
| ListPaging.WalkFromOffset | pkg/driver/controller_snapshot_list.go:261-325 | The walk from any offset ends. |
| DashboardPaging.PaginationMeta | pkg/dashboard/pagination.go:50-67 | The range of a page within bounds; a page beyond the last is set to the last. |
| DashboardPaging.RangesPartition | pkg/dashboard/pagination.go:50-67 | The pages' ranges follow one another from 0 to the total; only the last may be short, none is empty unless there is nothing. |
| DashboardPaging.OnOnePage | pkg/dashboard/pagination.go:50-67 | Every position is on exactly one page. |
| DashboardPaging.Paginate | pkg/dashboard/pagination.go:72-101 | A page is that range of the filtered and sorted list. |
| DashboardPaging.AllPagesAreTheList | pkg/dashboard/pagination.go:72-101 | All pages in a row are the filtered and sorted list: each matching entry as often as it occurs. |
| NfsOptions.MountOptions | pkg/driver/node_nfs_linux.go:19-55 | The options kept, the missing defaults, and nosharecache for a context, in that order. |
| NfsOptions.ResultKeys | pkg/driver/node_nfs_linux.go:19-55 | Which keys the result has. |
| NfsOptions.ContextIsNeverShared | pkg/driver/node_nfs_linux.go:31-54 | With an SELinux context there is a nosharecache key and never a sharecache key. |
| NfsOptions.UserOptionsWin | pkg/driver/node_nfs_linux.go:14-49 | User options come first and in order; a default follows exactly if no user option has its key. |
| NfsOptions.MergeIsIdempotent | pkg/driver/node_nfs_linux.go:19-55 | Merging again changes nothing. |
| NfsAccess.ParseAccessList | pkg/driver/controller_nfs_access.go:32-58 | The normalized entries without duplicates, or an error for any bad entry. |
| Text.SplitIs | pkg/driver/controller_nfs_access.go:38 | The parts of a list are what lies between its commas, in order. |
| NfsAccess.EntriesAre | pkg/driver/controller_nfs_access.go:37-50 | A list is refused exactly if an entry is blank or not accepted; otherwise each entry is normalized in its place. |
| NfsAccess.DistinctKeepsOrder | pkg/driver/controller_nfs_access.go:37-57 | No entry twice, in the order of first occurrence. |
| NfsAccess.SameIffPermutation | pkg/driver/controller_nfs_access.go:101-107 | Sorted copies are equal exactly if the lists are permutations. |
| NfsAccess.RestrictionIsHonoured | pkg/driver/controller_nfs_access.go:87-99 | An explicit restriction is accepted on an existing share exactly if both lists are permutations of the requested ones. |

## Left out

- Assumed of the server: deleting a target or an extent removes its mappings; a new object
  gets an identifier that is unused at that moment (it may have been used before); names of
  targets, extents and of a dataset's snapshots are unique; clones are listed with each
  snapshot and split at their commas.
- Assumed of callers: calls on one dataset are not interleaved with each other, so the
  snapshot guard and the delete after it see the same snapshots. For CreateVolume the guard on
  names in progress provides this (`CreateGuard`); for deletes and snapshots nothing does.
- The WebSocket client, gRPC, logging, metrics, process execution, sysfs and udev: calls with
  arbitrary outcomes. Which failed deletes count as retryable is a parameter (`Nas.Client.transient`).
- iSCSI adoption and clone setup, clone execution, and the promoted and detached clone modes:
  not claimed; their cleanup has other rules. Detached snapshots are not in the run theorems.
- NVMe-oF and NFS/SMB create: NVMe-oF create never reuses a subsystem, so only its delete is
  modelled.
- NvmeDelete.DeletesLeaveNothing: that no attempt silently kept the subsystem is sufficient for
  a run; it is exact for the attempt that deletes the ZVOL (NvmeDelete.NothingLeftIffRecorded).
- What other calls do between attempts is limited: they leave the ZVOL's properties alone and
  make no target, extent, namespace or subsystem of the volume.
- Snapshots.DeleteRegularSnapshot: IDs that already hold the full dataset@name path are
  not modelled, nor is the skipping of malformed snapshot names the server reports.
- FormatDecision.Node.NeedsFormat: cache invalidation before a check has no effect in the
  model, and a format is one event whatever the file system type.
- LookupCache.ResultsAreFresh: slices are values here, so that callers get copies is not
  stated; that a key has one lookup in flight is what singleflight provides and is a rule of
  the step relation. Queries are taken to be free of NUL, and the TTL to be positive, as the
  constant `dashboardCacheTTL` is.
- SessionParser.SelectPortal: whether a portal is the server's (host, port and resolved
  addresses) is a parameter.
- ListPaging.TokenRoundTrip: offsets fit in 64 bits. ListPaging.VolumeWalkIsComplete takes IDs
  to be non-empty, as dataset paths are.
- listAllSnapshots: iterates a map, so its order can differ between calls. The descending sort
  of the dashboard is no strict order; sorting is any reordering.
- NfsAccess.ParseAccessList: what an IP address, a CIDR network or a host name is, is a
  parameter. slices.Sort is modelled by its result.
- Strings are sequences of characters, not of UTF-8 bytes.
- Size verification, capped command output, parameter parsing, volume context and the node
  registry would only add easy members.
