/**
 * The single-module edition of the library (`src/vtools.py`): spec builders
 * for a new VM and for an OVF import, and an `ESXi` class that always logs
 * in, creates VMs, lists and searches VMs and datastores, and deletes a VM
 * without the host check, retries or confirmation polling of the package
 * edition.
 *
 * Its own `list_vim_obj`, `get_first_vim_obj` and `get_vim_obj_by_name`
 * are the same code as the package's and are modelled once, in `Vsphere`.
 */
module Legacy {
  import opened Wrappers
  import opened Gateway
  import Query
  import Vsphere
  import Vm
  import Esxi

  /** `VM`: a wrapper around one virtual-machine object. */
  datatype VM = VM(vimObj: ManagedObject)
  {
    /** The `name` property (`summary.config.name`). */
    function Name(): string
    {
      vimObj.name
    }
  }

  /** `Datastore`: a wrapper around one datastore object. */
  datatype Datastore = Datastore(vimObj: ManagedObject)
  {
    /** The `name` property (`summary.name`). */
    function Name(): string
    {
      vimObj.name
    }
  }

  /** `vim.vm.FileInfo`, of which only `vmPathName` is set. */
  datatype FileInfo = FileInfo(vmPathName: string)

  /** `vim.vm.ConfigSpec`: every property starts out unset. */
  class ConfigSpec {
    var annotation: Option<string>
    var memoryMB: Option<int>
    var guestId: Option<string>
    var numCPUs: Option<int>
    var name: Option<string>
    var files: Option<FileInfo>

    constructor()
      ensures annotation.None? && memoryMB.None? && guestId.None? && numCPUs.None?
      ensures name.None? && files.None?
    {
      annotation := None;
      memoryMB := None;
      guestId := None;
      numCPUs := None;
      name := None;
      files := None;
    }
  }

  /** `create_config_spec`: a fresh spec for a small VM with one CPU and 128 MB of memory. */
  method CreateConfigSpec() returns (spec: ConfigSpec)
    ensures fresh(spec)
    ensures spec.annotation == Some("Sample") && spec.memoryMB == Some(128)
    ensures spec.guestId == Some("otherGuest") && spec.numCPUs == Some(1)
    ensures spec.name.None? && spec.files.None?
  {
    spec := new ConfigSpec();
    spec.annotation := Some("Sample");
    spec.memoryMB := Some(128);
    spec.guestId := Some("otherGuest");
    spec.numCPUs := Some(1);
  }

  /** `vim.OvfManager.NetworkMapping`: an OVF network name and the host network it is bound to. */
  datatype NetworkMapping = NetworkMapping(name: string, network: Option<ManagedObject>)

  /** `vim.OvfManager.CreateImportSpecParams`: every property starts out unset, the mapping list empty. */
  class ImportSpecParams {
    var entityName: Option<string>
    var diskProvisioning: Option<string>
    var networkMapping: seq<NetworkMapping>

    constructor()
      ensures entityName.None? && diskProvisioning.None? && networkMapping == []
    {
      entityName := None;
      diskProvisioning := None;
      networkMapping := [];
    }
  }

  /** The arguments `create_import_spec` hands to `ovfManager.CreateImportSpec`. */
  datatype ImportSpecRequest = ImportSpecRequest(
    descriptor: string, resourcePool: ManagedObject, datastore: ManagedObject, params: ImportSpecParams)

  /** The OVF network name every import maps. */
  const VmNetwork: string := "VM Network"

  /**
   * `create_import_spec`: the parameters carry the entity name and the disk
   * provisioning only when they are given, and exactly one network mapping,
   * binding "VM Network" to the first listed network of that name (none when
   * there is none); the descriptor is whatever fetching `ovfUrl` returns.
   */
  method CreateImportSpec(content: Inventory, fetch: string -> string, ovfUrl: string,
                          resourcePool: ManagedObject, datastore: ManagedObject,
                          vmName: Option<string>, diskProvisioning: Option<string>)
    returns (request: ImportSpecRequest)
    ensures fresh(request.params)
    ensures request.params.entityName == vmName && request.params.diskProvisioning == diskProvisioning
    ensures |request.params.networkMapping| == 1
    ensures var mapping := request.params.networkMapping[0];
      var networks := Vsphere.Listed(content, Network, None, true);
      && mapping.name == VmNetwork
      && (mapping.network.Some? ==> mapping.network.value.name == VmNetwork && mapping.network.value in networks)
      && (mapping.network.None? <==> forall i :: 0 <= i < |networks| ==> networks[i].name != VmNetwork)
    ensures request.params.networkMapping[0].network
         == Query.Get(Vsphere.Listed(content, Network, None, true), Vsphere.NameIs(VmNetwork))
    ensures request.descriptor == fetch(ovfUrl)
    ensures request.resourcePool == resourcePool && request.datastore == datastore
  {
    var params := new ImportSpecParams();
    if vmName.Some? {
      params.entityName := vmName;
    }
    if diskProvisioning.Some? {
      params.diskProvisioning := diskProvisioning;
    }
    params.networkMapping := [];
    var network := Vsphere.GetVimObjByName(content, Network, VmNetwork, None, true);
    params.networkMapping := params.networkMapping + [NetworkMapping(VmNetwork, network)];
    var descriptor := fetch(ovfUrl);
    request := ImportSpecRequest(descriptor, resourcePool, datastore, params);
  }

  /** The datastore path `create_vm` gives a new VM: the datastore name in square brackets, and nothing else. */
  function VmPathName(datastoreName: string): (path: string)
    ensures |path| == |datastoreName| + 2
    ensures path[0] == '[' && path[|path| - 1] == ']'
    ensures path[1..|path| - 1] == datastoreName
  {
    "[" + datastoreName + "]"
  }

  /** The arguments `create_vm` hands to `vmFolder.CreateVm`. */
  datatype CreateVmCall = CreateVmCall(folder: ManagedObject, spec: ConfigSpec, resourcePool: ManagedObject, host: ManagedObject)

  /**
   * The run of `delete_vm` on a VM whose readings are `observe` and whose
   * task outcomes are `succeeds`, from oracle position `p`: read the state
   * once; when it is not `poweredOff`, submit one Power-off and wait for it;
   * unless that failed, submit Destroy and wait for it.
   */
  function DeleteVmRun(observe: nat -> PowerState, succeeds: nat -> bool, p: Vm.Pos): Vm.Run
  {
    var state := observe(p.readings);
    var afterRead := Vm.Pos(p.readings + 1, p.tasks);
    Esxi.DestroyAfter(state,
                      if state != PoweredOff then Vm.SubmitRun(Vm.PowerOffTask, succeeds, afterRead)
                      else Vm.Run([], None, afterRead),
                      succeeds)
  }

  /**
   * The tasks `delete_vm` submits: a Power-off exactly when the state read
   * is not `poweredOff`, then Destroy unless that Power-off failed; it reads
   * the state once, and fails only with a failed task.
   */
  lemma DeleteVmSubmits(observe: nat -> PowerState, succeeds: nat -> bool, p: Vm.Pos)
    ensures var run := DeleteVmRun(observe, succeeds, p);
      var on := observe(p.readings) != PoweredOff;
      && Vm.Ops(run.events) == (if on then [Vm.PowerOffTask] else [])
                               + (if !on || succeeds(p.tasks) then [Vm.DestroyTask] else [])
      && run.next.readings == p.readings + 1
      && (run.error.Some? ==> run.error == Some(TaskFailed))
  {
    var state := observe(p.readings);
    var afterRead := Vm.Pos(p.readings + 1, p.tasks);
    var destroyAt := if state != PoweredOff then Vm.Pos(afterRead.readings, afterRead.tasks + 1) else afterRead;
    var fin := Vm.SubmitRun(Vm.DestroyTask, succeeds, destroyAt);
    assert Vm.Ops(fin.events) == [Vm.DestroyTask] + Vm.Ops([]);
    assert Vm.Ops([Vm.Read(state)]) == [] + Vm.Ops([]);
    if state != PoweredOff {
      var off := Vm.SubmitRun(Vm.PowerOffTask, succeeds, afterRead);
      assert Vm.Ops(off.events) == [Vm.PowerOffTask] + Vm.Ops([]);
      Vm.OpsOfConcat([Vm.Read(state)], off.events);
      if succeeds(p.tasks) {
        Vm.OpsOfConcat([Vm.Read(state)] + off.events, fin.events);
      }
    } else {
      Vm.OpsOfConcat([Vm.Read(state)], fin.events);
    }
  }

  /**
   * `delete_vm` returns normally exactly when every task it submitted
   * succeeded, and then its last interaction is a successful Destroy.
   */
  lemma DeleteVmSucceedsIff(observe: nat -> PowerState, succeeds: nat -> bool, p: Vm.Pos)
    ensures var run := DeleteVmRun(observe, succeeds, p);
      var n := |run.events|;
      && (run.error.None? <==> forall i :: 0 <= i < n && run.events[i].Submit? ==> run.events[i].succeeded)
      && (run.error.None? ==> n >= 2 && run.events[n - 1] == Vm.Submit(Vm.DestroyTask, true))
  {
    var state := observe(p.readings);
    var run := DeleteVmRun(observe, succeeds, p);
    if state != PoweredOff {
      if succeeds(p.tasks) {
        var last := succeeds(p.tasks + 1);
        assert run.events == [Vm.Read(state), Vm.Submit(Vm.PowerOffTask, true), Vm.Submit(Vm.DestroyTask, last)];
        assert run.events[1].succeeded && run.events[2].succeeded == last;
      } else {
        assert run.events == [Vm.Read(state), Vm.Submit(Vm.PowerOffTask, false)];
        assert run.events[1].Submit? && !run.events[1].succeeded;
      }
    } else {
      assert run.events == [Vm.Read(state), Vm.Submit(Vm.DestroyTask, succeeds(p.tasks))];
      assert run.events[1].succeeded == succeeds(p.tasks);
    }
  }

  /**
   * Unlike the package's delete, `delete_vm` destroys a VM it never saw
   * powered off: a powered-on VM whose tasks succeed is destroyed after one
   * Power-off, with no reading of `poweredOff` in between.
   */
  lemma DeleteVmDestroysUnconfirmed(observe: nat -> PowerState, succeeds: nat -> bool, p: Vm.Pos)
    requires observe(p.readings) == PoweredOn && succeeds(p.tasks) && succeeds(p.tasks + 1)
    ensures var run := DeleteVmRun(observe, succeeds, p);
      && run.error.None?
      && run.events == [Vm.Read(PoweredOn), Vm.Submit(Vm.PowerOffTask, true), Vm.Submit(Vm.DestroyTask, true)]
      && Vm.Read(PoweredOff) !in run.events
  {
  }

  /** On a VM first read as `poweredOff`, `delete_vm` does what the package's delete does for a VM of its own host. */
  lemma DeleteVmAgreesWhenPoweredOff(host: Option<ManagedObject>, observe: nat -> PowerState, succeeds: nat -> bool,
                                     invokeAttempts: nat, confirmAttempts: nat, p: Vm.Pos)
    requires observe(p.readings) == PoweredOff
    ensures DeleteVmRun(observe, succeeds, p)
         == Esxi.DeleteRun(host, host, observe, succeeds, invokeAttempts, confirmAttempts, p)
  {
    Esxi.DeleteOfPoweredOffVm(host, observe, succeeds, invokeAttempts, confirmAttempts, p);
  }

  /** The wrappers of a sequence of objects, one per object, in order. */
  function Wrap<T>(objs: seq<ManagedObject>, wrap: ManagedObject -> T): (r: seq<T>)
    ensures |r| == |objs| && forall i :: 0 <= i < |objs| ==> r[i] == wrap(objs[i])
  {
    seq(|objs|, i requires 0 <= i < |objs| => wrap(objs[i]))
  }

  /**
   * `ESXi` of the single-module edition. `world` is the host's view of its
   * inventory; `consumed` holds, for each VM object, how many of its power
   * readings and task outcomes have been used, and `log` the power
   * interactions made through this host, in order.
   */
  class ESXi {
    const world: Inventory
    const ip: string
    const user: string
    const pwd: string
    const vimObj: Option<ManagedObject>
    var consumed: map<ManagedObject, Vm.Pos>
    var log: seq<Vm.Event>

    /**
     * `ESXi(ip, user, pwd)`: records the credentials, logs in and takes the
     * first host system the root folder lists (none when it lists none).
     */
    constructor(world: Inventory, ip: string := "localhost", user: string := "root", pwd: string := "")
      ensures this.world == world && this.ip == ip && this.user == user && this.pwd == pwd
      ensures vimObj.None? <==> Vsphere.Listed(world, HostSystem, None, true) == []
      ensures vimObj.Some? ==> vimObj.value == Vsphere.Listed(world, HostSystem, None, true)[0]
      ensures consumed == map[] && log == []
    {
      this.world := world;
      this.ip := ip;
      this.user := user;
      this.pwd := pwd;
      var first := Vsphere.GetFirstVimObj(world, HostSystem, None, true);
      vimObj := first;
      consumed := map[];
      log := [];
    }

    /** How much of a VM's oracle has been used: nothing before its first interaction. */
    function Cursor(vm: ManagedObject): Vm.Pos
      reads this
    {
      if vm in consumed then consumed[vm] else Vm.Pos(0, 0)
    }

    /**
     * `create_vm`: on a host with a host object and a datacenter, asks the
     * first datacenter's VM folder to create a VM from the standard spec,
     * named `name` and placed on `datastore`, in the host's resource pool.
     * `created` is what the creation task produced (none when it failed).
     * Without a host object or a datacenter, an attribute read on `None`
     * fails before anything is submitted.
     */
    method CreateVm(name: string, datastore: Datastore, created: Option<ManagedObject>)
      returns (r: Result<VM, Error>, ghost call: Option<CreateVmCall>)
      ensures var datacenters := Vsphere.Listed(world, Datacenter, None, true);
        && (vimObj.None? || datacenters == [] <==> call.None?)
        && (call.None? ==> r == Err(AttributeError))
        && (call.Some? ==>
              && call.value.folder == world.vmFolderOf(datacenters[0])
              && call.value.resourcePool == world.resourcePoolOf(vimObj.value)
              && call.value.host == vimObj.value
              && fresh(call.value.spec)
              && r == (if created.Some? then Ok(VM(created.value)) else Err(TaskFailed)))
      ensures call.Some? ==>
        var spec := call.value.spec;
        && spec.annotation == Some("Sample") && spec.memoryMB == Some(128)
        && spec.guestId == Some("otherGuest") && spec.numCPUs == Some(1)
        && spec.name == Some(name) && spec.files == Some(FileInfo(VmPathName(datastore.Name())))
    {
      if vimObj.None? {
        return Err(AttributeError), None;
      }
      var resourcePool := world.resourcePoolOf(vimObj.value);
      var datacenter := Vsphere.GetFirstVimObj(world, Datacenter, None, true);
      if datacenter.None? {
        return Err(AttributeError), None;
      }
      var folder := world.vmFolderOf(datacenter.value);
      var spec := CreateConfigSpec();
      spec.name := Some(name);
      spec.files := Some(FileInfo(VmPathName(datastore.Name())));
      call := Some(CreateVmCall(folder, spec, resourcePool, vimObj.value));
      if created.None? {
        return Err(TaskFailed), call;
      }
      r := Ok(VM(created.value));
    }

    /** Every VM the root folder lists, wrapped, in view order. */
    function AllVms(): seq<VM>
    {
      Wrap(Vsphere.Listed(world, VirtualMachine, None, true), o => VM(o))
    }

    /** Every datastore the root folder lists, wrapped, in view order. */
    function AllDatastores(): seq<Datastore>
    {
      Wrap(Vsphere.Listed(world, Gateway.VimType.Datastore, None, true), o => Datastore.Datastore(o))
    }

    /**
     * `list_vm`: every listed VM when no condition is given, otherwise
     * exactly the listed VMs that satisfy it, in their listed order.
     */
    function ListVm(condition: Option<VM -> bool>): (r: seq<VM>)
      ensures condition.None? ==> r == AllVms()
      ensures condition.Some? ==> forall v :: v in r <==> v in AllVms() && condition.value(v)
      ensures Query.IsSubsequence(r, AllVms())
    {
      Query.List(AllVms(), condition)
    }

    /**
     * `get_vm`: the first listed VM that satisfies the condition, none when
     * no listed VM does. Without a condition the first call of it fails,
     * so only an empty listing gets through.
     */
    function GetVm(condition: Option<VM -> bool>): (r: Result<Option<VM>, Error>)
      ensures condition.None? ==> r == if AllVms() == [] then Ok(None) else Err(TypeError)
      ensures condition.Some? ==> r.Ok?
      ensures condition.Some? ==>
        (r.value.None? <==> forall i :: 0 <= i < |AllVms()| ==> !condition.value(AllVms()[i]))
      ensures condition.Some? && r.value.Some? ==>
        r.value.value in AllVms() && condition.value(r.value.value)
    {
      match condition
      case None => if AllVms() == [] then Ok(None) else Err(TypeError)
      case Some(c) =>
        Query.GetFindsMatch(AllVms(), c);
        Ok(Query.Get(AllVms(), c))
    }

    /**
     * `list_datastore`: every listed datastore when no condition is given,
     * otherwise exactly the listed datastores that satisfy it, in order.
     */
    function ListDatastore(condition: Option<Datastore -> bool>): (r: seq<Datastore>)
      ensures condition.None? ==> r == AllDatastores()
      ensures condition.Some? ==> forall d :: d in r <==> d in AllDatastores() && condition.value(d)
      ensures Query.IsSubsequence(r, AllDatastores())
    {
      Query.List(AllDatastores(), condition)
    }

    /**
     * `get_datastore`: the first listed datastore that satisfies the
     * condition, none when no listed datastore does; without a condition
     * only an empty listing gets through.
     */
    function GetDatastore(condition: Option<Datastore -> bool>): (r: Result<Option<Datastore>, Error>)
      ensures condition.None? ==> r == if AllDatastores() == [] then Ok(None) else Err(TypeError)
      ensures condition.Some? ==> r.Ok?
      ensures condition.Some? ==>
        (r.value.None? <==> forall i :: 0 <= i < |AllDatastores()| ==> !condition.value(AllDatastores()[i]))
      ensures condition.Some? && r.value.Some? ==>
        r.value.value in AllDatastores() && condition.value(r.value.value)
    {
      match condition
      case None => if AllDatastores() == [] then Ok(None) else Err(TypeError)
      case Some(c) =>
        Query.GetFindsMatch(AllDatastores(), c);
        Ok(Query.Get(AllDatastores(), c))
    }

    /** `delete_vm`: see `DeleteVmRun`; it uses the VM's oracle from where earlier interactions left it. */
    method DeleteVm(vm: VM) returns (err: Option<Error>)
      modifies this
      ensures var run := DeleteVmRun(world.powerReadings(vm.vimObj), world.taskOutcomes(vm.vimObj), old(Cursor(vm.vimObj)));
        && log == old(log) + run.events && err == run.error
        && consumed == old(consumed)[vm.vimObj := run.next]
    {
      var observe := world.powerReadings(vm.vimObj);
      var succeeds := world.taskOutcomes(vm.vimObj);
      var p := Cursor(vm.vimObj);
      var state := observe(p.readings);
      var events := [Vm.Read(state)];
      p := Vm.Pos(p.readings + 1, p.tasks);
      if state != PoweredOff {
        var ok := succeeds(p.tasks);
        events := events + [Vm.Submit(Vm.PowerOffTask, ok)];
        p := Vm.Pos(p.readings, p.tasks + 1);
        if !ok {
          log := log + events;
          consumed := consumed[vm.vimObj := p];
          return Some(TaskFailed);
        }
      }
      var ok := succeeds(p.tasks);
      events := events + [Vm.Submit(Vm.DestroyTask, ok)];
      p := Vm.Pos(p.readings, p.tasks + 1);
      log := log + events;
      consumed := consumed[vm.vimObj := p];
      err := if ok then None else Some(TaskFailed);
    }
  }

  /** `get_vm(c)` is the head of `list_vm(c)` whenever that list is non-empty, and none otherwise. */
  lemma GetVmIsHeadOfListVm(e: ESXi, c: VM -> bool)
    ensures var l := e.ListVm(Some(c));
      e.GetVm(Some(c)) == Ok(if l == [] then None else Some(l[0]))
  {
    Query.GetIsHeadOfList(e.AllVms(), c);
  }

  /** `get_vm(c)` returns the first listed VM satisfying `c`: none before it does. */
  lemma GetVmIsFirstMatch(e: ESXi, c: VM -> bool, k: nat)
    requires k < |e.AllVms()| && c(e.AllVms()[k])
    requires forall j :: 0 <= j < k ==> !c(e.AllVms()[j])
    ensures e.GetVm(Some(c)) == Ok(Some(e.AllVms()[k]))
  {
    Query.GetIsFirstMatch(e.AllVms(), c, k);
  }

  /** `get_datastore(c)` is the head of `list_datastore(c)` whenever that list is non-empty, and none otherwise. */
  lemma GetDatastoreIsHeadOfListDatastore(e: ESXi, c: Datastore -> bool)
    ensures var l := e.ListDatastore(Some(c));
      e.GetDatastore(Some(c)) == Ok(if l == [] then None else Some(l[0]))
  {
    Query.GetIsHeadOfList(e.AllDatastores(), c);
  }

  /** `get_datastore(c)` returns the first listed datastore satisfying `c`: none before it does. */
  lemma GetDatastoreIsFirstMatch(e: ESXi, c: Datastore -> bool, k: nat)
    requires k < |e.AllDatastores()| && c(e.AllDatastores()[k])
    requires forall j :: 0 <= j < k ==> !c(e.AllDatastores()[j])
    ensures e.GetDatastore(Some(c)) == Ok(Some(e.AllDatastores()[k]))
  {
    Query.GetIsFirstMatch(e.AllDatastores(), c, k);
  }
}
