# v-tools core, modelled in Dafny

v-tools is a Python library and command-line tool for driving a VMware
ESXi host: listing and deleting VMs and datastores, switching a VM's power
state, adding disks and SCSI controllers, and walking a VM's snapshot
forest. This project models the core of that library and proves
properties of the model:

- **Query layer** (`query.dfy`, module `Query`). It covers `by`, `by_name`,
  and the `list`/`get` pair that every manager inherits. A manager's
  `_list_all` result is an abstract item sequence, and a condition is a
  total function of one item.
- **Inventory lookups** (`vsphere.dfy`, module `Vsphere`). It covers
  `list_vim_obj` through a container view, `get_first_vim_obj` and
  `get_vim_obj_by_name`. The host's answers come from a `Gateway.Inventory`
  value (`gateway.dfy`), which fixes in advance:
  - what each container view lists;
  - which datastores and VMs a host reports;
  - which host each VM belongs to;
  - for each VM, the power state it reports at its n-th reading and
    whether its n-th task succeeds.
- **Devices** (`device.py`, modelled in `device.dfy`, module `Device`). It
  covers:
  - collecting a controller's occupied unit numbers;
  - `next_free_unit`, kept as a method with its `while` loop over the
    sorted units;
  - disk equality by key;
  - the flat-v2 disk backing builder;
  - the SCSI controller creation spec.
- **Snapshots** (`snapshot.dfy`, module `Snapshot`). It covers:
  - `flatten_snapshot_tree`, a recursive method that appends to a shared
    list object;
  - `find_snapshot_tree`, a depth-first search;
  - the snapshot-type flags and the snapshot name and description
    accessors.
- **Power-state machine** (`vm.dfy`, module `Vm`). The `VM` class has an
  oracle cursor (`pos`) and a log of remote interactions (`events`). Its
  methods model:
  - `power_on`, `power_off` and `suspend`;
  - the three `_invoke_*` helpers, retried by tenacity up to 12 times;
  - `_wait_until_power_state_is`, retried up to 60 times.

  Each method is proved equal to a specification function (`InvokeRun`,
  `WaitRun`, `TransitionRun`, `SubmitRun`). Those functions are built on
  one generic `Retry` combinator, and the retry properties are proved once
  about that combinator.
- **Host** (`esxi.dfy`, module `Esxi`). It covers:
  - the two construction paths of `ESXi` and its equality;
  - the memoized `datastores` and `vms` managers;
  - the managers' `_list_all`;
  - `VMManager.delete`: host check, power-off when needed, then Destroy.
- **Single-module edition** (`src/vtools.py`, modelled in `legacy.dfy`,
  module `Legacy`). It covers:
  - the config-spec and import-spec builders;
  - an `ESXi` class that always logs in;
  - `create_vm`;
  - listing and searching VMs and datastores;
  - `delete_vm`, which has no host check, no retry and no confirmation.

`wrappers.dfy` holds the `Option` and `Result` datatypes.

Remote calls are not executed. Every reading and every task outcome is
taken from the `Inventory` oracle in order, and retries are counted in
attempts rather than seconds.

Behaviour of the code worth noting:

- `next_free_unit` returns `None` at capacity rather than raising.
- A controller with no occupied unit makes `next_free_unit` fail with
  `IndexError`.
- The controller's own unit is whatever `scsiCtlrUnitNumber` says, not a
  fixed unit 7.
- `suspend` always submits Suspend. It is not a no-op in the suspended
  state.
- The retry decorators retry after any error, including a failed task.

## Model

| member | source | states |
|---|---|---|
| Query.ByAppliesConditionToField | src/vtools/query.py:12-18 | `by(field, c)` holds of an object exactly when `c` holds of that field |
| Query.ByNameIsByOnName | src/vtools/query.py:21-22 | `by_name(c)` is `by` on the name field, so it holds exactly when `c` holds of the name |
| Query.FilterKeepsOnlyMatches | src/vtools/query.py:34-35 | the comprehension keeps only items satisfying the condition and never yields more items than it was given |
| Query.FilterCount | src/vtools/query.py:34-35 | each satisfying item occurs in the result exactly as often as in the input; any other item does not occur |
| Query.FilterKeepsExactlyMatches | src/vtools/query.py:34-35 | the result is a sub-multiset of the input holding every occurrence of every satisfying item |
| Query.FilterKeepsOrder | src/vtools/query.py:34-35 | the kept items appear in their original relative order (the result is a subsequence of the input) |
| Query.List | src/vtools/query.py:26-35 | with no condition `list` returns `_list_all` unchanged; with one it returns only satisfying items, each drawn from the listing, every satisfying item with its multiplicity, in listing order |
| Query.GetFindsMatch | src/vtools/query.py:37-41 | `get` returns `None` exactly when no item satisfies the condition, and otherwise an item of the listing that satisfies it |
| Query.GetIsFirstMatch | src/vtools/query.py:37-40 | when item `k` satisfies the condition and no earlier item does, `get` returns item `k` |
| Query.GetIsHeadOfList | src/vtools/query.py:34-40 | `get(c)` is the first element of `list(c)` when that list is non-empty, and `None` when it is empty |
| Vsphere.ContainerView.constructor | src/vtools/vsphere.py:20-23 | a new view is live and lists what the host reports for its container, type and recursion flag |
| Vsphere.ContainerView.Destroy | src/vtools/vsphere.py:25 | a destroyed view is no longer live |
| Vsphere.SearchRoot | src/vtools/vsphere.py:17-18 | the root folder is searched when no container is given, otherwise the given container |
| Vsphere.ListVimObj | src/vtools/vsphere.py:11-26 | the result is the contents of a fresh view over the search root, in view order, and that view has been destroyed before returning |
| Vsphere.GetFirstVimObj | src/vtools/vsphere.py:29-38 | `None` exactly when nothing is listed, otherwise the first listed object |
| Vsphere.GetVimObjByName | src/vtools/vsphere.py:41-52 | the first listed object with the given name; it is a listed object with that name, and `None` comes back exactly when no listed object has that name |
| Device.FlatV2 | src/vtools/device.py:57-73 | thin, eager and disk mode are always copied; the file name and the uuid are set exactly when supplied |
| Device.AttachedUnitsMembership | src/vtools/device.py:131-133 | a unit is collected from the VM's devices exactly when some device whose key the controller lists has that unit |
| Device.UsedUnitsMembership | src/vtools/device.py:125-134 | a unit is occupied exactly when it is a SCSI controller's own unit or the unit of an attached device |
| Device.GetUsedUnits | src/vtools/device.py:125-134 | the loop collects the controller's own unit (SCSI only) and then each attached device's unit, in device-list order |
| Device.SortedCopy | src/vtools/device.py:115 | sorting yields a sorted permutation of the occupied units |
| Device.FirstMismatch | src/vtools/device.py:120-123 | the scan stops at the first position whose unit differs from the position; every earlier position holds its own index |
| Device.PerfectRun | src/vtools/device.py:115-118 | for distinct non-negative units whose sorted list ends in `n - 1`, the units are exactly `0 .. n - 1`, so `n` is free |
| Device.FirstMismatchIsSmallestFree | src/vtools/device.py:120-123 | for distinct non-negative units, the first mismatch position is unoccupied and every smaller unit is occupied |
| Device.NextFreeUnit | src/vtools/device.py:105-123 | the method, with its sort and `while` loop, returns what `NextFreeUnitOf` gives for the collected units |
| Device.NextFreeUnitOutcomes | src/vtools/device.py:110-118 | `None` exactly at capacity; `IndexError` below capacity with no occupied unit; otherwise a unit no larger than the occupied count and below the maximum |
| Device.PerfectRunGivesCount | src/vtools/device.py:115-118 | when the sorted occupied units are exactly `0 .. n - 1`, the result is `n` |
| Device.NextFreeUnitIsSmallestFree | src/vtools/device.py:110-123 | for distinct non-negative units, a returned unit is unoccupied and every smaller non-negative unit is occupied |
| Device.NeverHandsOutOwnUnit | src/vtools/device.py:128-129 | a SCSI controller's own unit is never handed out (for distinct non-negative units) |
| Device.NextFreeUnitWithDuplicateUnits | src/vtools/device.py:110-123 | with a SCSI controller at unit 2 and devices at 0, 1, 1, the scan returns 2, an occupied unit (the controller's own) |
| Device.NextFreeUnitWithNegativeUnit | src/vtools/device.py:110-123 | with occupied units 0 and -1, the scan returns 0, an occupied unit |
| Device.DiskEqualityIsByKey | src/vtools/device.py:148-151 | two disks are equal exactly when their keys are; a disk never equals a non-disk |
| Device.DiskEqualityIsEquivalence | src/vtools/device.py:148-151 | disk equality is reflexive, symmetric and transitive |
| Device.ScsiControllerCreateSpec.constructor | src/vtools/device.py:166-168 | a new spec keeps the controller type and shares no bus |
| Device.ScsiControllerCreateSpec.SetBusSharing | src/vtools/device.py:170-171 | the bus-sharing mode becomes the given one |
| Device.ScsiControllerCreateSpec.VimDeviceSpec | src/vtools/device.py:173-184 | the device spec is an `add` of a controller of the chosen class with the current sharing mode |
| Snapshot.PreOrderOfConcat | src/vtools/snapshot.py:14-16 | flattening two forests side by side gives the first's traversal, then the second's |
| Snapshot.PreOrderLength | src/vtools/snapshot.py:14-16 | the appended length equals the number of nodes in the forest |
| Snapshot.SubtreeFollowsNode | src/vtools/snapshot.py:14-16 | every node of the traversal is immediately followed by the traversal of its own children, so a parent precedes all its descendants |
| Snapshot.TreeList.constructor | src/vtools/snapshot.py:9 | the caller's list holds the given items |
| Snapshot.TreeList.Append | src/vtools/snapshot.py:15 | `append` adds one node at the end |
| Snapshot.FlattenSnapshotTree | src/vtools/snapshot.py:7-16 | the list afterwards is its old contents, unchanged, followed by the pre-order traversal of the forest (nothing is appended for an empty forest) |
| Snapshot.FindSnapshotTree | src/vtools/snapshot.py:19-34 | a node the search returns carries the target snapshot and is a node of the forest |
| Snapshot.FindIsFirstInPreOrder | src/vtools/snapshot.py:19-34 | the search returns exactly the first node in pre-order that carries the target |
| Snapshot.FindNoneIffAbsent | src/vtools/snapshot.py:19-34 | the search returns `None` exactly when no node of the forest carries the target |
| Snapshot.NeverMemoryAndQuiesced | src/vtools/snapshot.py:37-44 | no snapshot type is both memory and quiesced; the simple type is exactly the one that is neither |
| Snapshot.FoundSnapshotDescribesFirstNode | src/vtools/snapshot.py:47-65 | a `Snapshot` built on the found node reports the name and description of the first node carrying that snapshot |
| Vm.InvokeAttemptShape | src/vtools/vm.py:49-75 | one attempt reads the state once and submits the power call only when the state differs from the target; it fails only when that task fails |
| Vm.InvokeIsNoOpInTargetState | src/vtools/vm.py:49-75 | an invocation that reads the target state submits nothing and succeeds |
| Vm.RetryBounded | src/vtools/vm.py:47-48 | a retried body that submits `op` at most once per attempt submits only `op`, at most once per attempt |
| Vm.RetrySubmitsNothing | src/vtools/vm.py:77-78 | a retried body whose attempts submit nothing submits nothing |
| Vm.RetryGivesUpAfterAllAttempts | src/vtools/vm.py:77-78 | with one interaction per attempt, a failure is `RetryError` after exactly as many interactions as attempts |
| Vm.RetryFailsOnlyByGivingUp | src/vtools/vm.py:47-48 | the only error a retried body surfaces is the decorator giving up |
| Vm.InvokeBounded | src/vtools/vm.py:47-75 | an `_invoke_*` helper submits only its own power call, at most 12 times, and fails only by giving up |
| Vm.RetrySucceedsIff | src/vtools/vm.py:47-48 | a retried body succeeds exactly when one of its attempts, each starting where the previous one failed, succeeds |
| Vm.RetrySuccessEndsWith | src/vtools/vm.py:77-89 | when every successful attempt ends with a given interaction, so does a successful retried run |
| Vm.InvokeSucceedsIff | src/vtools/vm.py:47-75 | an invocation succeeds exactly when, for some attempt `k` below the limit, reading `k` is the target or task outcome `k` is a success |
| Vm.InvokeAttemptsLineUp | src/vtools/vm.py:47-48 | attempt `k` of failing invocation attempts uses reading and task outcome `k` past the first |
| Vm.WaitSubmitsNothing | src/vtools/vm.py:77-89 | the poll submits no task, and when it fails it has read once per attempt and gives up with `RetryError` |
| Vm.WaitSucceedsIff | src/vtools/vm.py:77-89 | the poll succeeds exactly when one of its readings is the expected state, and then its last interaction is that reading |
| Vm.ConfirmAttemptsLineUp | src/vtools/vm.py:77-89 | attempt `k` of failing polls reads reading `k` past the first |
| Vm.TransitionConfirmed | src/vtools/vm.py:35-42 | `power_on`/`power_off` return normally only right after reading the target state; they submit only their power call, at most 12 times |
| Vm.SuspendSubmitsOnce | src/vtools/vm.py:44-45 | `suspend` submits Suspend exactly once with no reading or polling, and fails exactly when that task fails |
| Vm.VM.constructor | src/vtools/vm.py:14-18 | a new handle wraps the VM object, with no readings or tasks used yet |
| Vm.VM.PowerState | src/vtools/vm.py:28-30 | reading the power state takes the next reading from the oracle and logs it |
| Vm.VM.RunTask | src/vtools/vm.py:44-45 | submitting a task and waiting for it takes the next task outcome, logs it, and fails exactly when the task fails |
| Vm.VM.InvokeAttempt | src/vtools/vm.py:49-75 | one attempt's interactions, error and oracle position are those of `InvokeBody` |
| Vm.VM.InvokeRetrying | src/vtools/vm.py:47-48 | the recursive retry over the remaining attempts logs and returns what `Retry` over `InvokeBody` specifies |
| Vm.VM.InvokeTransition | src/vtools/vm.py:47-75 | a retried invocation does what `InvokeRun` with 12 attempts specifies |
| Vm.VM.InvokePowerOn | src/vtools/vm.py:47-55 | `_invoke_power_on` is the retried invocation with target poweredOn and the PowerOn task |
| Vm.VM.InvokePowerOff | src/vtools/vm.py:57-65 | `_invoke_power_off` is the retried invocation with target poweredOff and the PowerOff task |
| Vm.VM.InvokeSuspend | src/vtools/vm.py:67-75 | `_invoke_suspend` is the retried invocation with target suspended and the Suspend task |
| Vm.VM.ConfirmAttempt | src/vtools/vm.py:83-89 | one poll reads once and fails with `TryAgain` exactly on a mismatch |
| Vm.VM.ConfirmRetrying | src/vtools/vm.py:77-78 | the recursive poll over the remaining attempts does what `Retry` over `ConfirmBody` specifies |
| Vm.VM.WaitUntilPowerStateIs | src/vtools/vm.py:77-89 | `_wait_until_power_state_is` does what `WaitRun` with 60 attempts specifies |
| Vm.VM.PowerOn | src/vtools/vm.py:35-37 | `power_on` is invoke then confirm, as `TransitionRun` for poweredOn specifies |
| Vm.VM.PowerOff | src/vtools/vm.py:39-42 | `power_off` is invoke then confirm, as `TransitionRun` for poweredOff specifies |
| Vm.VM.Suspend | src/vtools/vm.py:44-45 | `suspend` is one Suspend task waited for, as `SubmitRun` specifies |
| Esxi.ESXi.constructor | src/vtools/esxi.py:20-53 | without a host object it keeps the credentials, logs in and takes the first listed host system; with one it keeps it, leaves ip/user/pwd unset and does not log in |
| Esxi.ESXi.Equals | src/vtools/esxi.py:40-43 | two hosts are equal exactly when they wrap the same host object; a host never equals anything else |
| Esxi.HostEqualityIsEquivalence | src/vtools/esxi.py:40-43 | host equality is reflexive, symmetric and transitive |
| Esxi.ESXi.Datastores | src/vtools/esxi.py:55-57 | the first access builds a manager for this host; later accesses return that same manager |
| Esxi.ESXi.Vms | src/vtools/esxi.py:59-61 | the first access builds a manager for this host; later accesses return that same manager |
| Esxi.AccessTwice | src/vtools/esxi.py:55-61 | reading either cached property twice yields the same manager both times |
| Esxi.DatastoreManager.constructor | src/vtools/esxi.py:72-73 | the manager belongs to the given host |
| Esxi.DatastoreManager.ListAll | src/vtools/esxi.py:75-77 | one wrapper per datastore of the host, in host order; `AttributeError` without a host object |
| Esxi.DatastoreListingUnwraps | src/vtools/esxi.py:75-77 | unwrapping the listing gives back the host's datastores, each once, in order |
| Esxi.VMManager.constructor | src/vtools/esxi.py:81-82 | the manager belongs to the given host |
| Esxi.VMManager.ListAll | src/vtools/esxi.py:84-85 | one fresh `VM` handle per VM of the host, in host order, with nothing used yet; `AttributeError` without a host object |
| Esxi.PowerOffIfNeededQualifies | src/vtools/esxi.py:95-96 | the power-off step submits only Power-offs, at most 12, and succeeds only right after a reading of poweredOff |
| Esxi.DestroyAfterPowerOff | src/vtools/esxi.py:95-97 | after such a power-off step, the delete submits Power-offs then at most one Destroy (the last task is Destroy whenever there are `bound + 1` tasks), and succeeds only with Destroy succeeding right after a reading of poweredOff |
| Esxi.DeleteRejectsForeignVm | src/vtools/esxi.py:91-93 | a VM of another host is refused with `InvalidStateError` before any reading or task |
| Esxi.DeleteOfPoweredOffVm | src/vtools/esxi.py:95-97 | a VM first read as poweredOff is only destroyed: one reading, one Destroy, failing exactly when Destroy fails |
| Esxi.DeleteSubmitsPowerOffThenDestroy | src/vtools/esxi.py:91-97 | every task a delete submits is a Power-off except possibly the last, which is Destroy; at most `invokeAttempts + 1` tasks, and when there are that many the last is Destroy, so at most `invokeAttempts` (12) Power-offs |
| Esxi.DeleteDestroysAfterPoweredOff | src/vtools/esxi.py:91-97 | a delete that returns normally ends with a successful Destroy right after a reading of poweredOff |
| Esxi.VMManager.Delete | src/vtools/esxi.py:91-97 | the method's interactions, error and oracle position are those `DeleteRun` specifies |
| Legacy.ConfigSpec.constructor | src/vtools.py:60 | a new config spec has every property unset |
| Legacy.CreateConfigSpec | src/vtools.py:59-66 | a fresh spec with annotation 'Sample', 128 MB of memory, guest 'otherGuest' and one CPU, with no name or files yet |
| Legacy.ImportSpecParams.constructor | src/vtools.py:77 | new import parameters have no entity name, no disk provisioning and no network mapping |
| Legacy.CreateImportSpec | src/vtools.py:69-98 | entity name and disk provisioning are set exactly when given; exactly one mapping, named "VM Network", bound to the first network of that name (none when there is none), which is exactly what `Query.Get` picks from the listed networks; the descriptor is what fetching the URL returns |
| Legacy.VmPathName | src/vtools.py:165 | the VM path is the datastore name between `[` and `]` and nothing else |
| Legacy.ESXi.constructor | src/vtools.py:136-155 | the credentials are kept, and the host object is the first listed host system (none when none is listed) |
| Legacy.ESXi.CreateVm | src/vtools.py:157-172 | without a host object or a datacenter, `AttributeError` and nothing is submitted; otherwise a create call in the first datacenter's VM folder with the host's resource pool, a standard spec named `name` with path `[datastore]`, and the created VM or `TaskFailed` |
| Legacy.ESXi.ListVm | src/vtools.py:174-181 | every listed VM with no condition; otherwise exactly the listed VMs that satisfy it, in listed order |
| Legacy.ESXi.GetVm | src/vtools.py:183-187 | the first listed VM satisfying the condition, or none when no VM does; with no condition, `TypeError` unless nothing is listed |
| Legacy.GetVmIsHeadOfListVm | src/vtools.py:174-187 | `get_vm(c)` is the head of `list_vm(c)`, or none when that list is empty |
| Legacy.GetVmIsFirstMatch | src/vtools.py:183-187 | when listed VM `k` is the first to satisfy `c`, `get_vm(c)` returns it |
| Legacy.ESXi.ListDatastore | src/vtools.py:197-205 | every listed datastore with no condition; otherwise exactly the satisfying ones, in listed order |
| Legacy.ESXi.GetDatastore | src/vtools.py:207-211 | the first listed datastore satisfying the condition, or none; with no condition, `TypeError` unless nothing is listed |
| Legacy.GetDatastoreIsHeadOfListDatastore | src/vtools.py:197-211 | `get_datastore(c)` is the head of `list_datastore(c)`, or none when that list is empty |
| Legacy.GetDatastoreIsFirstMatch | src/vtools.py:207-211 | when listed datastore `k` is the first to satisfy `c`, `get_datastore(c)` returns it |
| Legacy.DeleteVmSubmits | src/vtools.py:189-195 | `delete_vm` reads the state once, submits Power-off exactly when it is not poweredOff, then Destroy unless that Power-off failed, and fails only with a failed task |
| Legacy.DeleteVmSucceedsIff | src/vtools.py:189-195 | `delete_vm` returns normally exactly when every task it submitted succeeded, and then it ends with a successful Destroy |
| Legacy.DeleteVmDestroysUnconfirmed | src/vtools.py:189-195 | unlike the package's delete, a powered-on VM is destroyed without poweredOff ever being read |
| Legacy.DeleteVmAgreesWhenPoweredOff | src/vtools.py:189-195 | on a VM first read as poweredOff, `delete_vm` does exactly what the package's delete does for a VM of its own host |
| Legacy.ESXi.DeleteVm | src/vtools.py:189-195 | the method logs the interactions of `DeleteVmRun`, returns its error, and advances only this VM's oracle position |

## Left out

- Command-line layer, config-file persistence and exception-to-message dispatch: argument parsing, table rendering, file I/O, printing and exiting.
- Thin property wrappers (`cpu.py`, `controller.py`, `disk.py`, `datastore.py`) and accessors such as `VM.path`, `Disk.size` and the legacy `Datastore.type`: no logic beyond reading a remote property.
- `Disk.controller`: a `get` over the VM's controllers. Controllers are not part of this model.
- `DiskCreateSpec`: it reads `controller_type` and `bus_sharing`, which it never sets.
- `ESXi.get_vm_config_option`, `VMManager.create`, the OVF import and lease, and the disk, controller, snapshot, CPU and memory managers: they are defined outside the modelled files or are thin calls into them.
- `find_device_option_by_type` and `vm.config_option`: the device maximum is an input to `Device.NextFreeUnit`.
- The remote calls (`SmartConnect`, `CreateContainerView`, `CreateVm`, `CreateImportSpec`, power tasks, `Destroy`, `WaitForTask`) and `requests.get`. They are oracles or parameters:
  - readings and task outcomes come from `Gateway.Inventory`;
  - the created VM is a parameter of `Legacy.ESXi.CreateVm`;
  - the OVF text is a `fetch` parameter of `Legacy.CreateImportSpec`.

  Login or network failures are not modelled. Neither is a created VM appearing in later listings.
- Legacy.CreateImportSpec: models the request handed to `CreateImportSpec`, not the import-spec result the host returns.
- tenacity's `wait_fixed` delays and `loguru` logging: wall-clock time and output. Retries are counted in attempts.
- Device.SortedCopy: `list.sort()` works in place; the model sorts a copy (`Device.Insert` builds it), and the scan runs over that sorted sequence.
- Device.NextFreeUnitIsSmallestFree: proved only for distinct, non-negative units. Outside them the code can return an OCCUPIED unit: units 0 and -1 yield 0 (`Device.NextFreeUnitWithNegativeUnit`). The hypothesis is what the host guarantees: each device on a controller has its own non-negative unit number, distinct from the controller's own.
- Device.NeverHandsOutOwnUnit: proved only for distinct, non-negative units. With a duplicate the code can hand a SCSI controller its own unit: controller at 2, devices at 0, 1, 1 yield 2 (`Device.NextFreeUnitWithDuplicateUnits`). The host never assigns two devices on one controller the same unit, nor one equal to the controller's, so this does not arise on a real VM.
- `vm.esxi`: defined outside the modelled files. Each `Vm.VM` carries the host object its VM belongs to (`Inventory.hostOf`), and `delete` compares that with the manager's host object.
- Vm.VM: each handle keeps its own oracle cursor. Two handles on the same remote VM do not share readings, whereas the real host would.
- `_invoke_suspend` is modelled (`Vm.VM.InvokeSuspend`) but, as in the source, `suspend` does not call it.
- The legacy copies of `list_vim_obj`, `get_first_vim_obj` and `get_vim_obj_by_name` are the same code as the package's and are modelled once, in `Vsphere`.
- Legacy.ESXi.DeleteVm: compares the power state itself, where the source compares the formatted enum text with "poweredOff". The two tests agree for the three power states.
- The package managers' `list`/`get` are `Query.List`/`Query.Get` applied to `ListAll`; no separate members are written for them.
