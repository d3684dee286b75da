/**
 * One ESXi host: how a host object is obtained (logging in, or wrapping a
 * given host object), equality of hosts, the memoized datastore and VM
 * managers, what those managers list, and deleting a VM.
 */
module Esxi {
  import opened Wrappers
  import opened Gateway
  import Vsphere
  import Vm

  /** `vtools.datastore.Datastore`: a wrapper around one datastore object. */
  datatype Datastore = Datastore(vimObj: ManagedObject)

  /** The credentials `_login` connects with. */
  datatype Credentials = Credentials(ip: string, user: string, pwd: string)

  /** The right-hand side of `ESXi.__eq__`: another `ESXi`, or any other value. */
  datatype Operand = HostOperand(esxi: ESXi) | OtherOperand

  /**
   * `ESXi`. `world` is the host's view of its inventory, which every
   * property read of a host object goes through. `session` holds the
   * credentials a login was made with, and is absent when the object was
   * built around an existing host object.
   */
  class ESXi {
    const world: Inventory
    const vimObj: Option<ManagedObject>
    const ip: Option<string>
    const user: Option<string>
    const pwd: Option<string>
    const session: Option<Credentials>
    var datastoresCache: Option<DatastoreManager>
    var vmsCache: Option<VMManager>

    /** Each memoized manager belongs to this host. */
    predicate Valid()
      reads this
    {
      && (datastoresCache.Some? ==> datastoresCache.value.esxi == this)
      && (vmsCache.Some? ==> vmsCache.value.esxi == this)
    }

    /**
     * `ESXi(vim_obj, ip, user, pwd)`. Without a host object it records the
     * credentials, logs in and takes the first host system the root folder
     * lists (none when it lists none). With one, it keeps it, leaves ip, user
     * and pwd unset and does not log in.
     */
    constructor(vimObj: Option<ManagedObject>, world: Inventory,
                ip: string := "localhost", user: string := "root", pwd: string := "")
      ensures this.world == world
      ensures vimObj.Some? ==>
        && this.vimObj == vimObj
        && this.ip.None? && this.user.None? && this.pwd.None?
        && session.None?
      ensures vimObj.None? ==>
        && this.ip == Some(ip) && this.user == Some(user) && this.pwd == Some(pwd)
        && session == Some(Credentials(ip, user, pwd))
        && (this.vimObj.None? <==> Vsphere.Listed(world, HostSystem, None, true) == [])
        && (this.vimObj.Some? ==> this.vimObj.value == Vsphere.Listed(world, HostSystem, None, true)[0])
      ensures datastoresCache.None? && vmsCache.None?
      ensures Valid()
    {
      this.world := world;
      if vimObj.None? {
        this.ip := Some(ip);
        this.user := Some(user);
        this.pwd := Some(pwd);
        session := Some(Credentials(ip, user, pwd));
        var first := Vsphere.GetFirstVimObj(world, HostSystem, None, true);
        this.vimObj := first;
      } else {
        this.vimObj := vimObj;
        this.ip := None;
        this.user := None;
        this.pwd := None;
        session := None;
      }
      datastoresCache := None;
      vmsCache := None;
    }

    /** `__eq__`: equal to another `ESXi` exactly when both wrap the same host object; never equal to anything else. */
    function Equals(other: Operand): (r: bool)
      ensures other.OtherOperand? ==> !r
      ensures other.HostOperand? ==> (r <==> other.esxi.vimObj == vimObj)
    {
      match other
      case HostOperand(e) => vimObj == e.vimObj
      case OtherOperand => false
    }

    /** The `datastores` cached property: built on first access, then the same manager every time. */
    method Datastores() returns (m: DatastoreManager)
      requires Valid()
      modifies this
      ensures Valid()
      ensures old(datastoresCache).Some? ==> m == old(datastoresCache).value
      ensures old(datastoresCache).None? ==> fresh(m)
      ensures m.esxi == this && datastoresCache == Some(m) && vmsCache == old(vmsCache)
    {
      if datastoresCache.Some? {
        return datastoresCache.value;
      }
      m := new DatastoreManager(this);
      datastoresCache := Some(m);
    }

    /** The `vms` cached property: built on first access, then the same manager every time. */
    method Vms() returns (m: VMManager)
      requires Valid()
      modifies this
      ensures Valid()
      ensures old(vmsCache).Some? ==> m == old(vmsCache).value
      ensures old(vmsCache).None? ==> fresh(m)
      ensures m.esxi == this && vmsCache == Some(m) && datastoresCache == old(datastoresCache)
    {
      if vmsCache.Some? {
        return vmsCache.value;
      }
      m := new VMManager(this);
      vmsCache := Some(m);
    }
  }

  /** Host equality is an equivalence: reflexive, symmetric and transitive. */
  lemma HostEqualityIsEquivalence(a: ESXi, b: ESXi, c: ESXi)
    ensures a.Equals(HostOperand(a))
    ensures a.Equals(HostOperand(b)) == b.Equals(HostOperand(a))
    ensures a.Equals(HostOperand(b)) && b.Equals(HostOperand(c)) ==> a.Equals(HostOperand(c))
  {
  }

  /** Reading either cached property twice yields the same manager both times. */
  method AccessTwice(e: ESXi) returns (d1: DatastoreManager, d2: DatastoreManager, v1: VMManager, v2: VMManager)
    requires e.Valid()
    modifies e
    ensures d1 == d2 && v1 == v2
    ensures d1.esxi == e && v1.esxi == e
  {
    d1 := e.Datastores();
    v1 := e.Vms();
    d2 := e.Datastores();
    v2 := e.Vms();
  }

  /** `DatastoreManager`: the query layer over one host's datastores. */
  class DatastoreManager {
    const esxi: ESXi

    constructor(esxi: ESXi)
      ensures this.esxi == esxi
    {
      this.esxi := esxi;
    }

    /**
     * `_list_all`: one `Datastore` per datastore of the host, in host order;
     * reading the host's `datastore` property on an absent host is an
     * `AttributeError`.
     */
    function ListAll(): (r: Result<seq<Datastore>, Error>)
      ensures r.Err? <==> esxi.vimObj.None?
      ensures r.Err? ==> r.error == AttributeError
      ensures r.Ok? ==>
        var objs := esxi.world.datastoresOf(esxi.vimObj.value);
        |r.value| == |objs| && forall i :: 0 <= i < |objs| ==> r.value[i] == Datastore.Datastore(objs[i])
    {
      match esxi.vimObj
      case None => Err(AttributeError)
      case Some(host) =>
        var objs := esxi.world.datastoresOf(host);
        Ok(seq(|objs|, i requires 0 <= i < |objs| => Datastore.Datastore(objs[i])))
    }
  }

  /** Unwrapping what `_list_all` lists gives back the host's datastores, each once, in order. */
  lemma DatastoreListingUnwraps(m: DatastoreManager)
    ensures var r := m.ListAll();
      r.Ok? ==> seq(|r.value|, i requires 0 <= i < |r.value| => r.value[i].vimObj) == m.esxi.world.datastoresOf(m.esxi.vimObj.value)
  {
  }

  /**
   * The part of a delete after the first reading `state`: the power-off run
   * `off`, then, unless it failed, Destroy submitted and waited for.
   */
  function DestroyAfter(state: PowerState, off: Vm.Run, succeeds: nat -> bool): Vm.Run
  {
    if off.error.Some? then Vm.Prepend([Vm.Read(state)], off)
    else Vm.Prepend([Vm.Read(state)] + off.events, Vm.SubmitRun(Vm.DestroyTask, succeeds, off.next))
  }

  /** `power_off` (invoke and confirm) when the state read is not `poweredOff`, otherwise nothing. */
  function PowerOffIfNeeded(state: PowerState, observe: nat -> PowerState, succeeds: nat -> bool,
                            invokeAttempts: nat, confirmAttempts: nat, p: Vm.Pos): Vm.Run
  {
    if state != PoweredOff
    then Vm.TransitionRun(PoweredOff, Vm.PowerOffTask, observe, succeeds, invokeAttempts, confirmAttempts, p)
    else Vm.Run([], None, p)
  }

  /**
   * The power-off part submits only Power-offs, at most one per invoke
   * attempt, and succeeds only right after a reading of `poweredOff` (or the
   * first reading, when that was `poweredOff`).
   */
  lemma PowerOffIfNeededQualifies(state: PowerState, observe: nat -> PowerState, succeeds: nat -> bool,
                                  invokeAttempts: nat, confirmAttempts: nat, p: Vm.Pos)
    ensures var off := PowerOffIfNeeded(state, observe, succeeds, invokeAttempts, confirmAttempts, p);
      && Vm.AllAre(Vm.Ops(off.events), Vm.PowerOffTask) && |Vm.Ops(off.events)| <= invokeAttempts
      && (off.error.None? ==> ([Vm.Read(state)] + off.events)[|off.events|] == Vm.Read(PoweredOff))
  {
    if state != PoweredOff {
      Vm.TransitionConfirmed(PoweredOff, Vm.PowerOffTask, observe, succeeds, invokeAttempts, confirmAttempts, p);
    }
  }

  /**
   * What `VMManager.delete` does to a VM whose host object is `vmHost`, on
   * behalf of the manager of `managerHost`: refuse a VM of another host
   * before touching it; otherwise read its state, power it off (invoke and
   * confirm) only when it is not powered off, then submit Destroy and wait
   * for it.
   */
  function DeleteRun(vmHost: Option<ManagedObject>, managerHost: Option<ManagedObject>,
                     observe: nat -> PowerState, succeeds: nat -> bool,
                     invokeAttempts: nat, confirmAttempts: nat, p: Vm.Pos): Vm.Run
  {
    if vmHost != managerHost then Vm.Run([], Some(InvalidStateError), p)
    else
      var state := observe(p.readings);
      var afterRead := Vm.Pos(p.readings + 1, p.tasks);
      DestroyAfter(state, PowerOffIfNeeded(state, observe, succeeds, invokeAttempts, confirmAttempts, afterRead), succeeds)
  }

  /** A VM of another host is refused with `InvalidStateError` before any reading or task. */
  lemma DeleteRejectsForeignVm(vmHost: Option<ManagedObject>, managerHost: Option<ManagedObject>,
                               observe: nat -> PowerState, succeeds: nat -> bool,
                               invokeAttempts: nat, confirmAttempts: nat, p: Vm.Pos)
    requires vmHost != managerHost
    ensures var run := DeleteRun(vmHost, managerHost, observe, succeeds, invokeAttempts, confirmAttempts, p);
      run.events == [] && run.error == Some(InvalidStateError) && run.next == p
  {
  }

  /**
   * If the power-off part submits only Power-offs, at most `bound` of them,
   * and succeeds only right after a reading of `poweredOff`, then the rest
   * of the delete submits Power-offs and then at most one Destroy (always
   * Destroy when it submits `bound + 1` tasks), and
   * succeeds only with Destroy succeeding right after that reading.
   */
  lemma DestroyAfterPowerOff(state: PowerState, off: Vm.Run, succeeds: nat -> bool, bound: nat)
    requires Vm.AllAre(Vm.Ops(off.events), Vm.PowerOffTask) && |Vm.Ops(off.events)| <= bound
    requires off.error.None? ==> ([Vm.Read(state)] + off.events)[|off.events|] == Vm.Read(PoweredOff)
    ensures var run := DestroyAfter(state, off, succeeds);
      var ops := Vm.Ops(run.events);
      var n := |run.events|;
      && (forall i :: 0 <= i < |ops| && ops[i] != Vm.PowerOffTask ==> i == |ops| - 1 && ops[i] == Vm.DestroyTask)
      && |ops| <= bound + 1
      && (|ops| == bound + 1 ==> ops[|ops| - 1] == Vm.DestroyTask)
      && (run.error.None? ==>
            n >= 2 && run.events[n - 1] == Vm.Submit(Vm.DestroyTask, true) && run.events[n - 2] == Vm.Read(PoweredOff))
  {
    var head := [Vm.Read(state)] + off.events;
    assert Vm.Ops([Vm.Read(state)]) == [] + Vm.Ops([]);
    Vm.OpsOfConcat([Vm.Read(state)], off.events);
    if off.error.None? {
      var fin := Vm.SubmitRun(Vm.DestroyTask, succeeds, off.next);
      assert Vm.Ops(fin.events) == [Vm.DestroyTask] + Vm.Ops([]);
      Vm.OpsOfConcat(head, fin.events);
    }
  }

  /** Delete powers the VM off only when it was not powered off: after a first reading of `poweredOff` it only submits Destroy. */
  lemma DeleteOfPoweredOffVm(host: Option<ManagedObject>, observe: nat -> PowerState, succeeds: nat -> bool,
                             invokeAttempts: nat, confirmAttempts: nat, p: Vm.Pos)
    requires observe(p.readings) == PoweredOff
    ensures var run := DeleteRun(host, host, observe, succeeds, invokeAttempts, confirmAttempts, p);
      run.events == [Vm.Read(PoweredOff), Vm.Submit(Vm.DestroyTask, succeeds(p.tasks))]
      && run.error == (if succeeds(p.tasks) then None else Some(TaskFailed))
  {
  }

  /**
   * Every task a delete submits is a Power-off except possibly the last,
   * which is then Destroy, and there are at most as many Power-offs as
   * invoke attempts: one task more than that only when the last is Destroy.
   */
  lemma DeleteSubmitsPowerOffThenDestroy(host: Option<ManagedObject>,
                                         observe: nat -> PowerState, succeeds: nat -> bool,
                                         invokeAttempts: nat, confirmAttempts: nat, p: Vm.Pos)
    ensures var run := DeleteRun(host, host, observe, succeeds, invokeAttempts, confirmAttempts, p);
      var ops := Vm.Ops(run.events);
      && (forall i :: 0 <= i < |ops| && ops[i] != Vm.PowerOffTask ==> i == |ops| - 1 && ops[i] == Vm.DestroyTask)
      && |ops| <= invokeAttempts + 1
      && (|ops| == invokeAttempts + 1 ==> ops[|ops| - 1] == Vm.DestroyTask)
  {
    var state := observe(p.readings);
    var afterRead := Vm.Pos(p.readings + 1, p.tasks);
    var off := PowerOffIfNeeded(state, observe, succeeds, invokeAttempts, confirmAttempts, afterRead);
    PowerOffIfNeededQualifies(state, observe, succeeds, invokeAttempts, confirmAttempts, afterRead);
    DestroyAfterPowerOff(state, off, succeeds, invokeAttempts);
  }

  /**
   * A delete that returns normally ends with Destroy succeeding, right after
   * a reading of `poweredOff`: the VM is destroyed only once it has been seen
   * powered off.
   */
  lemma DeleteDestroysAfterPoweredOff(host: Option<ManagedObject>,
                                      observe: nat -> PowerState, succeeds: nat -> bool,
                                      invokeAttempts: nat, confirmAttempts: nat, p: Vm.Pos)
    ensures var run := DeleteRun(host, host, observe, succeeds, invokeAttempts, confirmAttempts, p);
      var n := |run.events|;
      run.error.None? ==>
        n >= 2 && run.events[n - 1] == Vm.Submit(Vm.DestroyTask, true) && run.events[n - 2] == Vm.Read(PoweredOff)
  {
    var state := observe(p.readings);
    var afterRead := Vm.Pos(p.readings + 1, p.tasks);
    var off := PowerOffIfNeeded(state, observe, succeeds, invokeAttempts, confirmAttempts, afterRead);
    PowerOffIfNeededQualifies(state, observe, succeeds, invokeAttempts, confirmAttempts, afterRead);
    DestroyAfterPowerOff(state, off, succeeds, invokeAttempts);
  }

  /** `VMManager`: the query layer over one host's VMs, and deletion of one of them. */
  class VMManager {
    const esxi: ESXi

    constructor(esxi: ESXi)
      ensures this.esxi == esxi
    {
      this.esxi := esxi;
    }

    /**
     * `_list_all`: a new `VM` handle for each VM of the host, in host order;
     * reading the host's `vm` property on an absent host is an `AttributeError`.
     */
    method ListAll() returns (r: Result<seq<Vm.VM>, Error>)
      ensures r.Err? <==> esxi.vimObj.None?
      ensures r.Err? ==> r.error == AttributeError
      ensures r.Ok? ==>
        var objs := esxi.world.vmsOf(esxi.vimObj.value);
        && |r.value| == |objs|
        && (forall i :: 0 <= i < |objs| ==> r.value[i].vimObj == objs[i] && fresh(r.value[i]))
        && (forall i :: 0 <= i < |objs| ==> r.value[i].pos == Vm.Pos(0, 0) && r.value[i].events == [])
    {
      if esxi.vimObj.None? {
        return Err(AttributeError);
      }
      var objs := esxi.world.vmsOf(esxi.vimObj.value);
      var vms: seq<Vm.VM> := [];
      for i := 0 to |objs|
        invariant |vms| == i
        invariant forall j :: 0 <= j < i ==> vms[j].vimObj == objs[j] && fresh(vms[j])
        invariant forall j :: 0 <= j < i ==> vms[j].pos == Vm.Pos(0, 0) && vms[j].events == []
      {
        var vm := new Vm.VM(objs[i], esxi.world);
        vms := vms + [vm];
      }
      r := Ok(vms);
    }

    /** `delete`: see `DeleteRun`. */
    method Delete(vm: Vm.VM) returns (err: Option<Error>)
      modifies vm
      ensures var run := DeleteRun(vm.host, esxi.vimObj, vm.observe, vm.succeeds,
                                   vm.invokeAttempts, vm.confirmAttempts, old(vm.pos));
        vm.events == old(vm.events) + run.events && err == run.error && vm.pos == run.next
    {
      if vm.host != esxi.vimObj {
        return Some(InvalidStateError);
      }
      var state := vm.PowerState();
      ghost var off := PowerOffIfNeeded(state, vm.observe, vm.succeeds, vm.invokeAttempts, vm.confirmAttempts, vm.pos);
      if state != PoweredOff {
        err := vm.PowerOff();
        Vm.AppendAssoc(old(vm.events), [Vm.Read(state)], off.events);
        if err.Some? {
          return;
        }
      } else {
        assert [Vm.Read(state)] + off.events == [Vm.Read(state)];
      }
      ghost var fin := Vm.SubmitRun(Vm.DestroyTask, vm.succeeds, vm.pos);
      err := vm.RunTask(Vm.DestroyTask);
      Vm.AppendAssoc(old(vm.events), [Vm.Read(state)] + off.events, fin.events);
    }
  }
}
