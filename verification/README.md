# Longhorn node disk manager: a verified model

The node disk manager keeps one `BlockDevice` object per disk and partition of a node in the Kubernetes API server. Five
pieces of code write those objects, each from what it read some time before: the startup scan, the udev event handlers, the
mount reconciler, and the two remove handlers (a disk takes its partitions along, a node takes its devices along). Users edit
the objects too. There are no locks: writers meet only in the API server's version check, and each retries in its own way.

The project models that system, down to the text it parses, and proves what holds over all of its runs.

| file | content |
|---|---|
| `Machine.dfy` | the object store and every call that changes it, as steps in any interleaving from any stale read: versions identify contents, no lost updates, state is a function of history, exactly which steps break the device tree, no Longhorn device is recorded |
| `Lifecycle.dfy` | what the committed calls of a run say about one object: creation, marking, disappearance, labels |
| `Interleaving.dfy` | orderly clients, the two windows between their calls in which another client can do harm, and the proof that the tree breaks exactly if a window is crossed |
| `Server.dfy` | the API server as one client sees it. A finite list of *fates* says what the environment does to each call: it is smooth, refused, answered but the answer is lost, or preceded by other clients' calls. A *trouble* is a fate that is not smooth. `mine` marks the client's own calls in the common log |
| `Order.dfy` | what a client's calls between two moments do to the tree, whatever the other clients do |
| `Convergence.dfy` | where a save loop is heading, and why none of these fates changes that |
| `Confinement.dfy`, `Deletion.dfy` | the delete loop of both remove handlers, with other writers at work |
| `Controller.dfy`, `Saving.dfy` | the block device controller's methods; the scan's one stale list |
| `Udev.dfy`, `Backoff.dfy` | the udev handlers with their re-entrant retries, and the doubling waits |
| `NodeLabels.dfy`, `Nodes.dfy` | node deletion: exactly what it removes, and exactly when that stays within the node |
| `Runs.dfy` | whole runs: any sequence of scans, events, changes and removals, handled by the methods above, and any number of such runs at the same time |
| `Mounting.dfy` | one mount reconcile as a function, conditions included, and runs of reconciles and rescans |
| `DeepCopy.dfy`, `Generation.dfy`, `BlockDevices.dfy` | the objects of a disk and its partitions: built on the heap by copying the parent and changing the copy, and the values they must have |
| `MountTable.dfy`, `UdevDatabase.dfy`, `Naming.dfy`, `Strings.dfy` | the parsers of /proc/mounts and of the udev database, and object names |

The goroutines of one process, and the processes of all nodes, are clients of the same server. Each method is proved against
arbitrary calls of the other clients: they arrive, by fate, before any of its own calls. What it promises about the tree is
that it is *orderly*: it creates a partition only after its own save of the disk has taken effect, and takes an object away
only after it has listed the object's partitions and deleted each of them. From that, `Interleaving.TreeExactlyInWindows` and
`Runs.ConcurrentRunsKeepTreeExactly` conclude for all clients together.

Every method that writes goes through `ApiServer.Call`, which accepts a write only as one of the steps of `Machine`, and keeps
`world == Replay(log)`. So what is proved about all logs holds in every state that the methods can reach.

## Assumptions

The libraries behind `pkg/generated/controllers` are represented by small contracts:

- Create fails if the name is taken. Update succeeds exactly when the sent version is the stored one, and replaces the object.
  Delete marks the object as being deleted; it disappears by the update that takes its finalizer off, which the framework
  sends, with the version the remove handler was given, once the handler has returned without an error
  (`vendor/github.com/rancher/wrangler/pkg/generic/remove.go`). Every commit raises the version.
- A failed call may or may not have had its effect. A failed List returns an empty list. A run meets finitely many troubles.
- A list, and the object an online or offline event reads, show every call of this client that came before. They may lag
  behind the other clients' calls: that is a read after which those calls arrive. A change or remove handler may be given any
  version that was ever stored.
- A condition setter finds or creates its condition, and stamps it when its status or message changes.
- Reading a disk's sysfs, udev and mount data gives one `Disk` value per device name, the same throughout an add event and its
  retries.

## What the code does that its comments do not say

- `SaveBlockDeviceByList` compares a value with a pointer, so it updates every device at every start. The version therefore
  changes even if nothing else does.
- Both saves replace the whole device status and thereby clear `LastFormattedAt` (`Machine.SaveClearsFormatStamp`).
- An online or offline event for an unknown device dereferences nil: the process crashes (`UpdateBlockDevice`, result `crashed`).
- An empty line in /proc/mounts that is reached before a match panics (`MountTable.PanicsExactlyOnEmptyLine`).
- After 62 failures in a row the doubled duration overflows, and from then on retries follow each other without a pause
  (`Backoff.WaitsExactly`).
- A partition is orphaned if its disk disappears between the disk's save and the partition's
  (`Machine.RemovalDuringSaveLoopOrphans`), or if it is created between the moment when the disk's remove handler lists the
  partitions and the disk's disappearance (`Machine.CreationDuringRemovalOrphans`). `Interleaving.TreeExactlyInWindows` says
  that nothing else can orphan one.
- Deleting a node deletes, with its own objects, every partition whose disk's name is taken by one of them.
  `Nodes.DashesLetACascadeLeaveItsNode` is a run in which a partition of another node is lost; `NodeLabels.FamiliesStayExactly`
  gives the scanned names for which this can happen.
- A partition's own add event stores it as a whole disk, but leaves the labels of an existing object as they are. A partition
  that its own event creates never gets a parent label, whatever is saved later (`Lifecycle.ParentLabelComesWithCreation`), so
  no cascade deletes it.
- If the Update after a successful mount is lost, the device is mounted again (`Mounting.LostUpdateMountsAgain`).

## Model

| member | source | states |
|---|---|---|
| Machine.ReachableInv | pkg/generated/controllers/longhorn.io/v1beta1/blockdevice.go:58-75 | in every reachable store, equal name and version mean equal contents, also between the store and anything a client may still hold |
| Machine.ReadIsCurrent | pkg/generated/controllers/longhorn.io/v1beta1/blockdevice.go:185-193 | if an update commits, what the writer had read is what is stored at that moment, however old the read |
| Machine.NoLostUpdate | pkg/controller/blockdevice/controller.go:171-214 | under any interleaving with stale reads a committed write changes one object, and in it only the writer's own fields: scan: device status; add: spec and device status; reconciler: conditions and three file-system fields; state events: state and conditions. Only saves create, only disappearances remove |
| Machine.StateIsHistory | pkg/udev/uevent.go:98-144 | in every reachable store a device's state is that of the last committed online/offline event since its creation, Active without one, and never Unknown, whatever scans, adds and reconciles came between |
| Machine.TreeKeptExactly | pkg/controller/blockdevice/controller.go:217-235 | a step keeps "every live object's parent is stored" if and only if it neither creates a partition without its parent nor removes an object with a live partition |
| Machine.TreeOverRuns | pkg/controller/blockdevice/controller.go:80-84 | the tree holds at every point of a run if and only if no step of it orphans |
| Machine.RemovalDuringSaveLoopOrphans | pkg/controller/blockdevice/controller.go:80-84 | a concrete run in which the parent vanishes inside a save loop and the partition is orphaned |
| Machine.CreationDuringRemovalOrphans | pkg/controller/blockdevice/controller.go:217-235 | a concrete run in which the partition is created after its disk's remove handler has listed the partitions, and is orphaned |
| Strings.ContainsExactly | pkg/util/util.go:16-18 | the substring test holds if and only if the text stands at some position of the string |
| Machine.NoLonghornDeviceRecorded | pkg/controller/blockdevice/controller.go:62-72 | if no saved reading's bus path has "longhorn" at any position, no reachable store holds a disk or partition whose bus path has |
| Machine.SaveRecordsLonghornExactly | pkg/udev/uevent.go:91-96 | a committed save records a Longhorn device if and only if its reading is of one |
| Machine.SaveRecordsReading | pkg/controller/blockdevice/controller.go:177-201 | a committed save writes, field by field, the device status of its reading; an add event, and a creation, also the spec of its reading, whereas the scan keeps a stored spec |
| Machine.SaveClearsFormatStamp | pkg/controller/blockdevice/controller.go:177-178 | any committed save, of the scan or of an add event, clears LastFormattedAt |
| Lifecycle.CreationOf | pkg/controller/blockdevice/controller.go:209-212 | every stored object has a creation in the log since which it has been stored under the labels of the reading it was created from; it is being deleted if and only if a delete call has come since |
| Lifecycle.LiveUntilMarked | pkg/controller/blockdevice/controller.go:229-233 | a created object is stored, and not being deleted, until a delete call for it commits, whatever all other clients do |
| Lifecycle.ParentLabelComesWithCreation | pkg/udev/uevent.go:153-155 | a stored object carries a parent label if and only if the save that created it read the whole disk |
| Interleaving.CreationOrphansExactly | pkg/controller/blockdevice/controller.go:80-84 | a partition created by an orderly client is orphaned if and only if, between the client's save of the disk and this call, another client removed the disk and nobody created it again |
| Interleaving.RemovalOrphansExactly | pkg/controller/blockdevice/controller.go:217-235 | a removal by an orderly client orphans a partition if and only if, between the handler's listing and this call, another client created a partition of the object and nobody deleted it |
| Interleaving.TreeExactlyInWindows | pkg/controller/blockdevice/blockdevice.go:67-69 | any interleaving of any number of orderly clients keeps the tree at every point if and only if no call crosses one of these windows of another client |
| Order.OrderlyKeepsTree | pkg/controller/blockdevice/controller.go:80-84 | between two moments of an orderly client, among arbitrary others, a tree that was always there lasts if and only if the others orphan nothing at their own calls and cross none of its windows |
| Order.HarmlessOthersKeepTree | pkg/controller/blockdevice/controller.go:80-84 | in particular it lasts if the others neither create nor remove |
| Server.ApiServer.Call | pkg/generated/controllers/longhorn.io/v1beta1/blockdevice.go:180-200 | one API call: after other clients' calls it takes effect unless refused, it is one of the machine's steps, and the answer is the store's unless it is lost |
| Server.ApiServer.List | pkg/generated/controllers/longhorn.io/v1beta1/blockdevice.go:207-210 | a successful list holds exactly the stored objects, a failed one nothing |
| Server.ApiServer.ListLabelled | pkg/controller/node/node.go:66-71 | a successful selector list holds exactly the stored objects with the label |
| Convergence.SaveLoopCalls | pkg/controller/blockdevice/controller.go:171-192 | one save: the loop stays orderly under any fate; and on any set of names that takes in the saved ones and whose objects the others leave alone, the loop's destination does not move, one more device is saved if the call succeeds, and as many as before if it fails |
| Convergence.SaveLoopNests | pkg/udev/uevent.go:164-169 | a whole save loop run inside another one leaves the outer loop heading for the same store, with everything saved |
| Convergence.SaveLoopFinished | pkg/udev/uevent.go:164-169 | on such names a completed loop has reached the store that one pass over the devices would leave, versions aside |
| Convergence.OverlayFields | pkg/controller/blockdevice/controller.go:176-200 | that store, field by field: a saved device has the wanted status, the wanted spec unless the scan found one stored, and of a stored object everything else |
| Udev.UdevMonitor.AddBlockDevice | pkg/udev/uevent.go:147-170 | under any failures and other writers it ends, with at most (n+2)^f calls of itself for n devices and f troubles, and has been orderly; if the others' calls write other objects, add finalizers or turn devices online or offline, the saved devices end as one pass over them would leave them (versions, and in the last case state and conditions, aside), although outer frames save from outdated lists; the same holds for all further objects that the others leave alone; each frame first waits as Backoff says |
| Udev.AddCountSaves | pkg/udev/uevent.go:165-168 | while its frame has met no trouble the list is up to date and the save succeeds: so the first recursion of a frame has cost a trouble, and every retry starts with a smaller budget |
| Udev.AddRecords | pkg/udev/uevent.go:147-170 | whatever failures an add meets, if other clients leave its devices alone, every device of the disk ends with the spec and status of the reading, an object stored before keeps its labels and deletion mark, and everything else they leave alone is as it was |
| Udev.SameOutcome | pkg/udev/uevent.go:147-170 | two adds of the same devices to the same objects end alike, whatever failures each has met: in particular like a failure-free one |
| Udev.UdevMonitor.ReadsNamedDisk | pkg/block/block_device.go:56-61 | an event for a device path reads the data of the kernel device of that name, and so does the path itself |
| Udev.UdevMonitor.UpdateBlockDevice | pkg/udev/uevent.go:112-145 | it ends with the object in the event's state and Mounted saying whether the disk is mounted, or crashes because the object is missing; it retries at most once a trouble, with the waits of Backoff; undisturbed, the new store is exactly that of one state event, or the old one if nothing would change |
| Udev.UdevMonitor.RemoveBlockDevice | pkg/udev/uevent.go:173-189 | it ends with the object being deleted or absent, after at most one retry a trouble and the waits of Backoff; undisturbed, the store is that of one delete call |
| Udev.UdevMonitor.ActionHandler | pkg/udev/uevent.go:91-111 | events whose ID_PATH has "longhorn" at any position, whose ID_TYPE is neither "disk" nor "partition", or of other actions change nothing; each of the four actions has its own effect; the handler is orderly |
| Controller.BlockDeviceController.SaveBlockDevice | pkg/controller/blockdevice/controller.go:171-192 | exactly one call: an update, with the new spec and device status, of the listed object of that name, or a creation if none is listed; it reports whether the call succeeded |
| Controller.BlockDeviceController.SaveBlockDeviceByList | pkg/controller/blockdevice/controller.go:194-214 | the same, keeping the spec, and always updating a listed object |
| Controller.BlockDeviceController.RegisterNodeBlockDevices | pkg/controller/blockdevice/controller.go:57-86 | the scan is orderly under any fates, for any names, also after an early return; for distinct names it refines a save loop; undisturbed, it succeeds if every device is listed once, and then every disk whose bus path does not have "longhorn" in it, and each of its partitions, is stored under its own name with its scanned status, stored specs are kept, new ones are the scanned ones, and no other object has changed |
| Controller.BlockDeviceController.CollectDevices | pkg/controller/blockdevice/controller.go:62-72 | the loop builds, disk by disk, what the next three rows characterize |
| Saving.NoDiskIsLeftOut | pkg/controller/blockdevice/controller.go:62-72 | every device of every disk whose bus path does not have "longhorn" in it is among them |
| Saving.NothingElseIsSaved | pkg/controller/blockdevice/controller.go:62-72 | nothing else is |
| Saving.DistinctScanNames | pkg/controller/blockdevice/controller.go:62-72 | each is there once, if the kernel lists it once |
| Saving.SourcesMatch | pkg/controller/blockdevice/controller.go:70-71 | every device the scan saves stems from one of its readings, and each partition comes after its parent |
| Saving.SourcesNotLonghorn | pkg/controller/blockdevice/controller.go:63-67 | no reading the scan saves is of a Longhorn disk |
| Saving.StaleListIsHarmless | pkg/controller/blockdevice/controller.go:74-84 | without other writers, saving all devices against one list taken before the loop succeeds if and only if the names are distinct, and then equals listing again before each save |
| Saving.ScanRecords | pkg/controller/blockdevice/controller.go:194-214 | after such a scan every device is present with its scanned status, existing specs are unchanged, all other objects are untouched |
| Saving.ScanStores | pkg/controller/blockdevice/controller.go:57-86 | the same in terms of the scanned disks and partitions |
| Controller.BlockDeviceController.OnBlockDeviceChange | pkg/controller/blockdevice/controller.go:90-138 | on any version a cache may show: it mounts and writes exactly when the specified reconcile does, and what it writes is the specified object |
| Mounting.ReconcileOwnsItsFields | pkg/controller/blockdevice/controller.go:99-135 | a reconcile changes nothing but conditions, file-system type, mount point and format stamp |
| Mounting.ValidExactly | pkg/controller/blockdevice/controller.go:155-169 | a file system is valid if and only if its type is ext2, ext3, ext4 or xfs and the requested mount point is the recorded one, or, unless it is the root, the recorded one with a slash appended; the error names what is recorded |
| Mounting.TrailingSlashIsOptional | pkg/controller/blockdevice/controller.go:156-162 | a target written as a path and a slash is reached by exactly that path |
| Mounting.ReconcileActsExactly | pkg/controller/blockdevice/controller.go:90-121 | a mount is issued if and only if the object is not being deleted, a mount point is requested and the file system is not valid; an Update if and only if something changed or the mount failed; after a successful mount the type and mount point that the disk reports are recorded, otherwise they stay |
| Mounting.MountedIsExact | pkg/controller/blockdevice/controller.go:123-129 | past mounting, the two condition writes agree, and Mounted is True if and only if the recorded file system is valid in that sense |
| Mounting.ReconcileKeepsOtherConditions | pkg/controller/blockdevice/controller.go:125-129 | a reconcile touches no condition but Mounted |
| Mounting.SettersKeepOthers | vendor/github.com/rancher/wrangler/pkg/condition/condition.go:180-195 | every setter changes at most the first condition of its kind, and appends one only if there is none |
| Mounting.StampsExactlyChanges | vendor/github.com/rancher/wrangler/pkg/condition/condition.go:164-170 | status and message setters stamp the condition exactly when they change it |
| Mounting.MountFailureIsReported | pkg/controller/blockdevice/controller.go:111-116 | a failed mount is written with a message that names device, path and error and with Mounted not True, and leaves the recorded mount point and type as they were |
| Mounting.StampSetExactly | pkg/controller/blockdevice/controller.go:103-109 | LastFormattedAt is set if and only if a mount is attempted with forced formatting and no stamp yet |
| Mounting.DoubleSlashNeverMatches | pkg/controller/blockdevice/controller.go:155-162 | a target still ending in a slash, other than the root, matches no path that does not end in one |
| Mounting.SetErrorSays | vendor/github.com/rancher/wrangler/pkg/condition/condition.go:17-30 | after SetError status, reason and message are those of the error, or of none |
| Mounting.AtMostOneMount | pkg/controller/blockdevice/controller.go:90-138 | any run of reconciles and rescans mounts successfully at most once more than Updates are lost right after a mount, and issues no mount once one is recorded |
| Mounting.LostUpdateMountsAgain | pkg/controller/blockdevice/controller.go:104-135 | the bound is met: after a lost Update the next reconcile mounts again |
| Mounting.AtMostOneMountIssued | pkg/controller/blockdevice/controller.go:103-116 | if mounts do not fail, no more than that are issued: one, if no Update is lost |
| Mounting.ReconcileSettles | pkg/controller/blockdevice/controller.go:118-135 | the reconcile that mounts, and any reconcile of a device whose mount is recorded, leaves it settled if its Update arrives |
| Mounting.SettledStays | pkg/controller/blockdevice/controller.go:131-137 | reconciling a settled device issues neither a mount nor an update |
| Mounting.SettledRun | pkg/controller/blockdevice/controller.go:90-138 | once settled, in any further run of reconciles and rescans no reconcile mounts or writes |
| Mounting.StampedAtMostOnce | pkg/controller/blockdevice/controller.go:106-109 | over reconciles alone, whose Updates may be lost, LastFormattedAt changes at most once |
| Deletion.DeleteLabelled | pkg/controller/blockdevice/controller.go:222-234 | list by label and delete, under any fates: a failure costs a trouble; success means that every object listed at some moment has been deleted since; without other writers exactly the labelled objects are marked; if the others keep to a set of names that covers them, nothing outside it is touched and no labelled object is left that is not being deleted |
| Controller.BlockDeviceController.OnBlockDeviceDelete | pkg/controller/blockdevice/controller.go:217-235 | that, for the partitions of the device |
| Controller.BlockDeviceController.Finalize | vendor/github.com/rancher/wrangler/pkg/generic/remove.go:29-57 | given any version, it is orderly under any fates: the object disappears only after the handler has listed and deleted its partitions, and only if that version is still the stored one; undisturbed, exactly the object is gone and exactly its partitions are marked |
| Confinement.ConfinedCall | pkg/controller/node/node.go:61-79 | a call that keeps to a set of names, among other writers that do, creates nothing and leaves every live object outside the set as it was |
| Nodes.NodeController.OnNodeDelete | pkg/controller/node/node.go:61-79 | the delete loop for the objects labelled with the node |
| Nodes.NodeController.FinalizeAll | pkg/controller/blockdevice/controller.go:217-235 | the remove handlers, in any order and under any fates, come to an end with nothing left that is being deleted, and stay within any set of names closed under "is a partition of" |
| Nodes.NodeController.RemoveNode | pkg/controller/node/node.go:61-79 | node deletion and its cascades leave exactly the objects outside the least set that holds the node's labelled objects and with an object its partitions, unchanged, among other handlers that keep to that set and orphan nothing |
| Nodes.UndisturbedRemoval | pkg/controller/node/node.go:61-79 | the same without other clients, whatever failures the calls meet |
| Nodes.OnlyLabelledDoomedExactly | pkg/controller/node/node.go:66-68 | that set is exactly the objects labelled with the node if and only if no unlabelled object has a labelled parent |
| Nodes.DistinguishableNodesPart | pkg/controller/node/node.go:66-68 | it is so after any run whose scanned names do not collide across nodes |
| NodeLabels.AllBorn | pkg/controller/blockdevice/blockdevice.go:26-33 | every stored object carries the labels that some saved reading gave to its name |
| NodeLabels.FamiliesStayExactly | pkg/controller/blockdevice/blockdevice.go:80-83 | in all runs over given readings every partition is labelled with the node of its stored parent if and only if no partitioned disk's name continues, or is continued by, a device name of another node by a dash and the beginning of a node name |
| NodeLabels.DashFreeIsDistinguishable | pkg/util/util.go:12-14 | device names without a dash never collide so, whatever the nodes are called |
| Nodes.DashesLetACascadeLeaveItsNode | pkg/controller/blockdevice/controller.go:222-234 | a concrete run: two nodes' saves, after which the deletion of one node dooms a partition of the other, and the calls of the cascade that remove it |
| Runs.DiskManager.Run | pkg/controller/blockdevice/controller.go:38-54 | any sequence of scans, events, changes, removals and node deletions, under any fates and other clients: the run is orderly, so the tree lasts at every point if and only if the others orphan nothing and cross no window; states follow history; no Longhorn device if the readings are of none; partitions stay on the node of their disk if scanned names do not collide |
| Runs.ConcurrentRunsKeepTreeExactly | pkg/udev/uevent.go:53-57 | any number of such runs at the same time keep the tree at every point if and only if no client's call crosses a window of another one's |
| Runs.AgreeingEventsMayHappen | pkg/udev/uevent.go:91-96 | the readings of every event are not Longhorn's if, for each add event, a Longhorn bus path comes with a Longhorn ID_PATH |
| Backoff.WaitsExactly | pkg/udev/uevent.go:173-188 | consecutive failures wait exactly 2, 4, ..., 2^62 units, which fit signed 64 bits; from the 63rd on nothing is waited for |
| DeepCopy.DeviceObject.DeepCopyInto | pkg/apis/longhorn.io/v1beta1/zz_generated_deepcopy.go:28-35 | the copy has the same value and shares no label map, condition array or timestamp with the original, which is unchanged |
| DeepCopy.StatusStruct.DeepCopyInto | pkg/apis/longhorn.io/v1beta1/zz_generated_deepcopy.go:106-115 | the same for the status and its condition array |
| DeepCopy.DeviceStatusStruct.DeepCopyInto | pkg/apis/longhorn.io/v1beta1/zz_generated_deepcopy.go:176-182 | the same for the device status |
| DeepCopy.FilesystemStatusStruct.DeepCopyInto | pkg/apis/longhorn.io/v1beta1/zz_generated_deepcopy.go:211-218 | the same for the file-system status and its timestamp |
| DeepCopy.GetPartitionBlockDevices | pkg/controller/blockdevice/blockdevice.go:72-95 | one new object a partition, in order, with the fields that Generation.GeneratedReads spells out, none sharing anything mutable with another or with the parent |
| DeepCopy.GetNewBlockDevices | pkg/controller/blockdevice/blockdevice.go:18-70 | the parent followed by its partitions, pairwise separate; the parent's labels do not gain the parent key |
| DeepCopy.WritesStayLocal | pkg/controller/blockdevice/blockdevice.go:80-91 | whatever is written through one of the objects, the others keep their values |
| Generation.GeneratedReads | pkg/controller/blockdevice/blockdevice.go:18-95 | every field of every generated device, from the reading: what a partition has of its own comes from the partition, the rest from its disk |
| Generation.GeneratedAt | pkg/controller/blockdevice/blockdevice.go:80-91 | every generated device: its name, host label, bus path, Active state, and a parent label naming the disk if and only if it is a partition |
| Generation.GeneratedDistinct | pkg/controller/blockdevice/blockdevice.go:18-70 | distinct device names give distinct object names |
| Generation.GeneratedParentsFirst | pkg/controller/blockdevice/blockdevice.go:67-69 | each partition comes after its parent |
| Naming.NameDeterminesDevice | pkg/util/util.go:12-14 | for one node, object names are injective in the device name |
| Naming.NamesCollideExactly | pkg/util/util.go:12-14 | two (device, node) pairs share a name if and only if they are equal or one device name continues the other with a dash and part of a node name |
| Naming.DashFreeNamesIdentify | pkg/util/util.go:12-14 | with dash-free device names the pair can be told from the name, whatever the node names |
| Naming.DeviceMapperNamesCollide | pkg/util/util.go:12-14 | a device-mapper name shows that the condition is needed |
| Naming.UdevAndScanAgree | pkg/udev/device.go:39-46 | event path and scan path give the same object name for every slash-free kernel device |
| Naming.NoShortName | pkg/udev/device.go:41-44 | a path with fewer than two slashes has no short name |
| MountTable.DecodeEncode | pkg/block/block_device.go:458-461 | the single-pass decoder inverts the four-escape encoder on every string |
| MountTable.SequentialDecodingIsNotAnInverse | pkg/block/block_device.go:458-461 | replacing the escapes one after another does not: a mount point containing a literal escape is misread |
| MountTable.DecodeKeepsTheRest | pkg/block/block_device.go:458-461 | a string without one of the four escapes at any position is kept as it is |
| MountTable.SpaceSeparates | pkg/block/block_device.go:441 | each of Go's white-space characters up to U+00FF separates two words |
| MountTable.ParseWords | pkg/block/block_device.go:438-470 | a line of words is an entry if and only if there are at least four and the first starts with a slash |
| MountTable.ParsePrinted | pkg/block/block_device.go:435-471 | parsing a printed entry returns it |
| MountTable.ScanOneLine | pkg/block/block_device.go:408-410 | a line ends before a newline, before a carriage return and a newline, or with the text |
| MountTable.IsReadOnly | pkg/block/block_device.go:416-422 | read-only if and only if no option is "rw" |
| MountTable.GetPartitionInfo | pkg/block/block_device.go:392-426 | the loop computes the first-match search over the scanned lines |
| MountTable.PrintedTableScans | pkg/block/block_device.go:409-411 | scanning the printed text of a table gives back its lines |
| MountTable.PrintedTableAnswers | pkg/block/block_device.go:392-426 | searching the printed text of any table, mixed with other lines, gives exactly the first entry of the device, or "not mounted" without one |
| MountTable.PanicsExactlyOnEmptyLine | pkg/block/block_device.go:435-440 | the reader panics if and only if an empty line comes before any match |
| MountTable.ShortNameAndPathAgree | pkg/block/block_device.go:393-397 | a short name and its /dev form give the same answer |
| MountTable.OnlyNamesAreCompleted | pkg/block/block_device.go:395-397 | whatever begins with "/dev" is taken as a path, everything else as a name below /dev/ |
| UdevDatabase.ReadUdevInfo | pkg/block/block_device.go:133-141 | the loop records the properties of all lines in order |
| UdevDatabase.LastValueWins | pkg/block/block_device.go:133-141 | in printed rows mixed with other lines, among them E: lines without a value, each key has the value of its last row, and there are no other keys |
| UdevDatabase.DatabaseRoundTrip | pkg/block/block_device.go:133-141 | the same for the whole printed text |

## Left out

- Reading sysfs and /proc files, running blkid, netlink sockets, making directories and mounting: a `Disk` reading and the
  outcome of a mount attempt are inputs.
- Kubernetes and wrangler internals: informers, work queues, leader election and reflection are replaced by the contracts above.
- Wall-clock time, sleeping, logging, command line, manifests and generated clients.
- The single-file readers, the drive-type table and the NUMA and sector arithmetic: each is settled by reading one branch.
- ext4 formatting: the code only stamps the time.
- A line of more than 64 KiB, at which the line scanner stops.
- More than one namespace, and the difference between nil and empty slices or maps.
- UpdateStatus is treated as an update that may fail. The manifest enables no status subresource; a server that therefore
  refused it for ever would keep the event handler retrying for ever, which is not a run with finitely many troubles.
- Controller.BlockDeviceController.Finalize: an object is assumed to carry its finalizer when it is deleted.
- Server.ApiServer.List: a cache that does not yet show this client's own earlier calls is not modelled; one that lags behind
  the other clients is, since their calls may arrive right after the read.
- Server.ApiServer.ListLabelled: the same; a node's remove handler that reads a cache without this client's own creations
  would miss them.
- Udev.UdevMonitor.UpdateBlockDevice: the same; the cached object shows at least this client's own earlier writes.
- Controller.BlockDeviceController.OnBlockDeviceChange: does not look at the node name, because the code does not; the devices
  are those of one node.
- Controller.BlockDeviceController.RegisterNodeBlockDevices: convergence is stated for distinct scanned names, as a kernel
  directory gives them; for repeated names Saving.StaleListIsHarmless says that the scan fails.
- Udev.UdevMonitor.AddBlockDevice: convergence is not stated for reconciles, edits or removals of the very devices it saves
  that arrive while it runs: they write the same fields, and the last writer wins. Of its pauses only the first of each
  frame is stated, not the whole sequence, because the frames' order depends on the fates. Readings that change between
  retries are not modelled.
- Udev.UdevMonitor.ActionHandler: a partition's own add event is covered by the same contract, as a disk of that name.
- Mounting.AtMostOneMount: is about one device whose requested mount point is not edited during the run.
- Nodes.NodeController.RemoveNode: the exact result excludes writers on other nodes while it runs; Runs.DiskManager.Run covers
  what they cannot break.
