/**
 * The remote object model of the virtualization host, as the core sees it.
 *
 * Everything the host answers is fixed in advance by an `Inventory` value:
 * which objects a container view lists, which datastores and VMs a host
 * reports, and, for every VM, the power state it reports at its n-th reading
 * and whether its n-th submitted task succeeds. The core's code never looks
 * inside these answers; it only consumes them in order.
 */
module Gateway {
  import opened Wrappers

  /** The managed-entity types the core asks container views for. */
  datatype VimType = HostSystem | VirtualMachine | Datastore | Network | Datacenter | Folder | ResourcePool

  /** A reference to one managed object: its identifier, its type and its `name` property. */
  datatype ManagedObject = ManagedObject(moId: string, kind: VimType, name: string)

  /** `vim.VirtualMachine.PowerState`. */
  datatype PowerState = PoweredOn | PoweredOff | Suspended

  /** The exceptions the core raises or lets through. */
  datatype Error =
    | InvalidStateError   // a VM handed to the wrong host's manager
    | RetryError          // a retry decorator gave up after its last attempt
    | TaskFailed          // `WaitForTask` saw the task end in error
    | AttributeError      // an attribute read on `None`
    | IndexError          // a list index out of range
    | TryAgain            // raised by a retried body to ask for another attempt
    | TypeError           // a call of `None` as if it were a function

  /** The host's answers (see the module comment). */
  datatype Inventory = Inventory(
    rootFolder: ManagedObject,
    // objects a container view over (container, type, recursive) lists, in view order
    view: (ManagedObject, VimType, bool) -> seq<ManagedObject>,
    // the `datastore` and `vm` properties of a host object
    datastoresOf: ManagedObject -> seq<ManagedObject>,
    vmsOf: ManagedObject -> seq<ManagedObject>,
    // the host object a VM belongs to, if any
    hostOf: ManagedObject -> Option<ManagedObject>,
    // the power state a VM reports at its n-th reading
    powerReadings: ManagedObject -> nat -> PowerState,
    // whether the n-th task submitted against a VM succeeds
    taskOutcomes: ManagedObject -> nat -> bool,
    // `host.parent.resourcePool` and `datacenter.vmFolder`
    resourcePoolOf: ManagedObject -> ManagedObject,
    vmFolderOf: ManagedObject -> ManagedObject)
}
